/** What the queue promises over whole runs: one worker at a time, first come first served, every
    accepted job in exactly one place, an honest position, and cancels that hit one job only. */
module JobQueueTheorems {
  import opened Wrappers
  import opened JobQueue

  /** Never two workers, never a waiting job without a worker that will promote it, and whenever a
      job is live the running one can finish, which leaves one live job fewer. */
  lemma OneAtATime(policy: Policy, states: seq<Queue>, actions: seq<Action>, i: nat, end: RunEnd)
    requires IsRun(policy, states, actions) && i < |states|
    ensures |states[i].active| <= 1
    ensures states[i].pending != [] ==> states[i].running.Some?
    ensures Live(states[i]) != [] ==>
              && states[i].running.Some? && states[i].active == [states[i].running.value]
              && Enabled(states[i], Finish(states[i].running.value, end))
              && Live(Apply(states[i], policy, Finish(states[i].running.value, end))) == Live(states[i])[1..]
  {
    RunKeepsInv(policy, states, actions, i);
    if Live(states[i]) != [] {
      FinishLeavesTheRest(policy, states[i], end);
    }
  }

  lemma FinishLeavesTheRest(policy: Policy, q: Queue, end: RunEnd)
    requires Serial(q) && q.running.Some?
    ensures Live(Finished(q, policy, q.running.value, end)) == Live(q)[1..]
  {
    var after := Finished(q, policy, q.running.value, end);
    assert Live(q)[1..] == q.pending;
    if q.pending != [] {
      assert Live(after) == [q.pending[0]] + q.pending[1..];
    }
  }

  /** However enqueues, cancels and completions interleave, live sweeps never share a key, and the
      live sweeps and the finished ones are the accepted ones in order of acceptance. */
  lemma SweepsAreDeduplicated(states: seq<Queue>, actions: seq<Action>, i: nat)
    requires IsRun(Sweeps, states, actions) && i < |states|
    ensures DistinctKeys(Live(states[i]))
  {
    RunKeepsInv(Sweeps, states, actions, i);
  }

  lemma ServedInOrder(policy: Policy, states: seq<Queue>, actions: seq<Action>, i: nat)
    requires IsRun(policy, states, actions) && i < |states|
    ensures Jobs(states[i].finished) + Live(states[i]) == Without(states[i].accepted, states[i].dropped)
  {
    RunKeepsInv(policy, states, actions, i);
  }

  function Places(q: Queue, id: nat): nat {
    (if id in Ids(Jobs(q.finished)) then 1 else 0)
    + (if q.running.Some? && q.running.value.id == id then 1 else 0)
    + (if id in Ids(q.pending) then 1 else 0)
    + (if id in q.dropped then 1 else 0)
  }

  /** A job that was accepted is finished, running, pending or dropped, never two of these, and in
      its place only once; a request that was not accepted is nowhere. */
  lemma EveryJobInOnePlace(policy: Policy, states: seq<Queue>, actions: seq<Action>, i: nat, id: nat)
    requires IsRun(policy, states, actions) && i < |states|
    ensures Places(states[i], id) == if id in Ids(states[i].accepted) then 1 else 0
    ensures DistinctIds(Jobs(states[i].finished)) && DistinctIds(states[i].pending)
    ensures |states[i].finished| + |Live(states[i])| + |states[i].dropped| == |states[i].accepted|
  {
    RunKeepsInv(policy, states, actions, i);
    InOnePlace(states[i], id);
  }

  lemma InOnePlace(q: Queue, id: nat)
    requires InOrder(q)
    ensures Places(q, id) == if id in Ids(q.accepted) then 1 else 0
    ensures DistinctIds(Jobs(q.finished)) && DistinctIds(q.pending)
    ensures |q.finished| + |Live(q)| + |q.dropped| == |q.accepted|
  {
    var f, l := Jobs(q.finished), Live(q);
    LiveAndFinishedAreDistinct(q);
    SplitIds(f, l);
    var r := if q.running.Some? then [q.running.value] else [];
    SplitIds(r, q.pending);
    assert id in Ids(r) <==> q.running.Some? && q.running.value.id == id by {
      if q.running.Some? { assert r[0].id in Ids(r); }
    }
    WithoutCount(q.accepted, q.dropped);
  }

  lemma SplitIds(a: seq<Job>, b: seq<Job>)
    requires DistinctIds(a + b)
    ensures DistinctIds(a) && DistinctIds(b) && Ids(a) !! Ids(b) && Ids(a + b) == Ids(a) + Ids(b)
  {
    HeadIsDisjoint(a, b);
    assert forall i :: 0 <= i < |a| ==> (a + b)[i] == a[i];
    assert forall i :: 0 <= i < |b| ==> (a + b)[|a| + i] == b[i];
    forall id | id in Ids(a) + Ids(b)
      ensures id in Ids(a + b)
    {
      if id in Ids(a) {
        var i :| 0 <= i < |a| && a[i].id == id;
        assert (a + b)[i].id == id;
      } else {
        var i :| 0 <= i < |b| && b[i].id == id;
        assert (a + b)[|a| + i].id == id;
      }
    }
  }

  /** An id that no job has may as well be left out. */
  lemma WithoutAbsent(jobs: seq<Job>, id: nat, ids: set<nat>)
    requires id in ids && id !in Ids(jobs)
    ensures Without(jobs, ids) == Without(jobs, ids - {id})
  {
    WithoutTwice(jobs, {id}, ids - {id});
    WithoutOthers(jobs, {id});
    assert {id} + (ids - {id}) == ids;
  }

  lemma {:induction false} WithoutCount(jobs: seq<Job>, ids: set<nat>)
    requires DistinctIds(jobs) && ids <= Ids(jobs)
    ensures |Without(jobs, ids)| + |ids| == |jobs|
  {
    if jobs != [] {
      var front, job := jobs[..|jobs| - 1], jobs[|jobs| - 1];
      assert jobs == front + [job];
      IdsSnoc(front, job);
      assert job.id !in Ids(front);
      if job.id in ids {
        WithoutCount(front, ids - {job.id});
        WithoutAbsent(front, job.id, ids);
      } else {
        WithoutCount(front, ids);
      }
    }
  }

  // --- Positions -----------------------------------------------------------------------

  /** The reported position is the index of the job that will answer the request among the live
      jobs, and `deduped` says whether that is an earlier one. A sweep joins whichever live job
      has its key; a training joins only the running one. */
  lemma ReportIsHonest(policy: Policy, q: Queue, job: Job)
    requires Inv(policy, q) && job.id !in q.used
    ensures var (position, deduped) := Reported(q, policy, job);
            var r := Apply(q, policy, Enqueue(job));
            && position < |Live(r)| && Live(r)[position].key == job.key
            && (deduped ==> Live(r) == Live(q) && r.accepted == q.accepted)
            && (!deduped ==> Live(r) == Live(q) + [job] && position == |Live(q)|)
            && (deduped <==> exists k :: 0 <= k < |Live(q)| && Live(q)[k].key == job.key && (k == 0 || policy.Sweeps?))
  {
    var r := Apply(q, policy, Enqueue(job));
    JoinsIff(policy, q, job.key);
    if Duplicate(q, policy, job.key).None? {
      assert Live(r) == Live(q) + [job];
    }
  }

  /** A request joins a live job exactly if there is one with its key that it may join, and then that one. */
  lemma JoinsIff(policy: Policy, q: Queue, key: Key)
    requires Serial(q)
    ensures Duplicate(q, policy, key).Some? <==>
              exists k :: 0 <= k < |Live(q)| && Live(q)[k].key == key && (k == 0 || policy.Sweeps?)
    ensures Duplicate(q, policy, key).Some? ==>
              Duplicate(q, policy, key).value < |Live(q)| && Live(q)[Duplicate(q, policy, key).value].key == key
  {
    match Duplicate(q, policy, key)
    case Some(i) => assert Live(q)[i].key == key;
    case None =>
      if policy.Sweeps? {
        assert forall k :: 0 <= k < |Live(q)| ==> Live(q)[k] in q.pending || q.running == Some(Live(q)[k]);
      }
  }

  lemma {:induction false} AcceptedAndDroppedGrow(policy: Policy, states: seq<Queue>, actions: seq<Action>,
          i: nat, j: nat)
    requires IsRun(policy, states, actions) && i <= j < |states|
    ensures states[i].accepted <= states[j].accepted
    ensures states[i].dropped <= states[j].dropped
    decreases j
  {
    if i < j {
      AcceptedAndDroppedGrow(policy, states, actions, i, j - 1);
      assert Steps(policy, states[j - 1], actions[j - 1], states[j - 1 + 1]);
      assert states[j - 1].accepted <= states[j].accepted;
    }
  }

  /** A position is how many jobs must finish first: when the job at live position `p` is running
      at a later point, at most `p` jobs have finished in between, and exactly `p` unless a pending
      job was dropped meanwhile. Nothing enqueued later ever runs before it. */
  lemma PositionIsJobsAhead(policy: Policy, states: seq<Queue>, actions: seq<Action>, i: nat, p: nat, j: nat)
    requires IsRun(policy, states, actions) && i <= j < |states|
    requires p < |Live(states[i])| && states[j].running == Some(Live(states[i])[p])
    ensures |states[j].finished| <= |states[i].finished| + p
    ensures states[j].dropped == states[i].dropped ==> |states[j].finished| == |states[i].finished| + p
  {
    var q, r := states[i], states[j];
    var before := Jobs(q.finished) + Live(q);
    var after := Jobs(r.finished) + Live(r);
    RunKeepsInv(policy, states, actions, i);
    RunKeepsInv(policy, states, actions, j);
    AcceptedAndDroppedGrow(policy, states, actions, i, j);
    LiveAndFinishedAreDistinct(q);
    LiveAndFinishedAreDistinct(r);
    var k, job := |q.finished| + p, Live(q)[p];
    assert before[k] == job && after[|r.finished|] == job;
    var rest := r.accepted[|q.accepted|..];
    assert after == Without(before, r.dropped) + Without(rest, r.dropped) by {
      assert r.accepted == q.accepted + rest;
      WithoutConcat(q.accepted, rest, r.dropped);
      WithoutTwice(q.accepted, q.dropped, r.dropped);
      assert q.dropped + r.dropped == r.dropped;
    }
    assert job.id !in r.dropped by { WithoutIsPart(r.accepted, r.dropped, job); }
    var m := IndexAfterDrops(before, r.dropped, k);
    assert after[m] == job;
    assert m == |r.finished|;
    if r.dropped == q.dropped {
      WithoutOthers(before, r.dropped);
      assert after[k] == job;
    }
  }

  lemma {:induction false} IndexAfterDrops(jobs: seq<Job>, ids: set<nat>, k: nat) returns (m: nat)
    requires k < |jobs| && jobs[k].id !in ids
    ensures m <= k && m < |Without(jobs, ids)| && Without(jobs, ids)[m] == jobs[k]
    decreases |jobs|
  {
    var front := jobs[..|jobs| - 1];
    if k < |jobs| - 1 {
      m := IndexAfterDrops(front, ids, k);
    } else {
      m := |Without(front, ids)|;
      WithoutIsNoLonger(front, ids);
    }
  }

  lemma {:induction false} WithoutIsNoLonger(jobs: seq<Job>, ids: set<nat>)
    ensures |Without(jobs, ids)| <= |jobs|
  {
    if jobs != [] {
      WithoutIsNoLonger(jobs[..|jobs| - 1], ids);
    }
  }

  // --- Cancels -------------------------------------------------------------------------

  /** The id of the job an action signals, if it signals one. */
  function Target(q: Queue, a: Action): set<nat> {
    if q.running.Some? && (a.Cancel? || a.StopAll? || a == CancelJob(q.running.value.id))
    then {q.running.value.id}
    else {}
  }

  /** One cancel sets the event of the job current at that moment and nobody else's, and whatever
      a step promotes starts with a clear event, never targeted before. */
  lemma CancelHitsOnlyTheCurrentJob(policy: Policy, q: Queue, a: Action)
    requires Inv(policy, q) && Enabled(q, a)
    ensures var r := Apply(q, policy, a);
            && r.targeted == q.targeted + Target(q, a)
            && (r.running.Some? && r.running != q.running ==> !r.stop && r.running.value.id !in r.targeted)
            && (r.running.Some? && r.running == q.running ==> (r.stop <==> q.stop || Target(q, a) != {}))
  {
    var r := Apply(q, policy, a);
    ApplyKeepsIsolated(q, policy, a);
    OnlyTheTargetIsAdded(policy, q, a);
    PromotedIsUntargeted(policy, q, a);
    EventFollowsTargets(q, r, Target(q, a));
  }

  /** The running job's event is set exactly if it is targeted, before and after. */
  lemma EventFollowsTargets(q: Queue, r: Queue, targets: set<nat>)
    requires Isolated(q) && Isolated(r) && r.targeted == q.targeted + targets
    requires targets <= (if q.running.Some? then {q.running.value.id} else {})
    ensures r.running.Some? && r.running == q.running ==> (r.stop <==> q.stop || targets != {})
    ensures r.running.Some? && r.running.value.id !in r.targeted ==> !r.stop
  {
    if targets != {} {
      var id :| id in targets;
    }
  }

  lemma PromotedIsUntargeted(policy: Policy, q: Queue, a: Action)
    requires Inv(policy, q) && Enabled(q, a)
    ensures var r := Apply(q, policy, a);
            r.running.Some? && r.running != q.running ==> r.running.value.id !in q.targeted + Target(q, a)
  {
    match a
    case Enqueue(job) =>
      if q.running.None? {
        EnqueuedIsUntargeted(policy, q, job);
      }
    case Finish(job, end) => NextIsUntargeted(policy, q, job, end);
    case Cancel =>
    case CancelJob(_) =>
    case ClearPending =>
    case StopAll =>
  }

  lemma EnqueuedIsUntargeted(policy: Policy, q: Queue, job: Job)
    requires Inv(policy, q) && Enabled(q, Enqueue(job)) && q.running.None?
    ensures var r := Enqueued(q, policy, job); r.running.Some? ==> r.running.value.id !in q.targeted
  {
    LiveAndFinishedAreDistinct(q);
  }

  lemma NextIsUntargeted(policy: Policy, q: Queue, job: Job, end: RunEnd)
    requires Inv(policy, q) && Enabled(q, Finish(job, end))
    ensures var r := Finished(q, policy, job, end); r.running.Some? ==> r.running.value.id !in q.targeted
  {
  }

  lemma OnlyTheTargetIsAdded(policy: Policy, q: Queue, a: Action)
    requires Serial(q)
    ensures Apply(q, policy, a).targeted == q.targeted + Target(q, a)
  {
    match a
    case Enqueue(job) =>
    case Cancel =>
    case CancelJob(id) =>
    case ClearPending =>
    case StopAll =>
    case Finish(job, end) =>
  }

  lemma PromotedIsAnother(q: Queue)
    requires InOrder(q) && q.running.Some? && q.pending != []
    ensures q.pending[0].id != q.running.value.id
  {
    LiveAndFinishedAreDistinct(q);
    assert (Jobs(q.finished) + Live(q))[|q.finished|] == q.running.value;
    assert (Jobs(q.finished) + Live(q))[|q.finished| + 1] == q.pending[0];
  }

  lemma {:induction false} TargetedByAnAction(policy: Policy, states: seq<Queue>, actions: seq<Action>, i: nat, id: nat)
    returns (k: nat)
    requires IsRun(policy, states, actions) && i < |states| && id in states[i].targeted
    ensures k < i && id in Target(states[k], actions[k])
    decreases i
  {
    var q := states[i - 1];
    assert Steps(policy, q, actions[i - 1], states[i - 1 + 1]);
    RunKeepsInv(policy, states, actions, i - 1);
    CancelHitsOnlyTheCurrentJob(policy, q, actions[i - 1]);
    if id in q.targeted {
      k := TargetedByAnAction(policy, states, actions, i - 1, id);
    } else {
      k := i - 1;
    }
  }

  /** History says "canceled" only of a job that a cancel hit while that job was running. */
  lemma CanceledMeansTargeted(policy: Policy, states: seq<Queue>, actions: seq<Action>, i: nat, f: nat) returns (k: nat)
    requires IsRun(policy, states, actions) && i < |states|
    requires f < |states[i].finished| && states[i].finished[f].state.Canceled?
    ensures k < i && states[i].finished[f].job.id in Target(states[k], actions[k])
  {
    RunKeepsInv(policy, states, actions, i);
    k := TargetedByAnAction(policy, states, actions, i, states[i].finished[f].job.id);
  }

  /** And a targeted sweep that does not fail is recorded so: a sweep's record is "canceled"
      exactly if its run did not raise and a cancel hit it. */
  lemma SweepVerdictIsExact(states: seq<Queue>, actions: seq<Action>, i: nat)
    requires IsRun(Sweeps, states, actions) && i < |actions| && actions[i].Finish?
    ensures var record := states[i + 1].finished[|states[i].finished|];
            && states[i + 1].finished == states[i].finished + [record] && record.job == actions[i].job
            && (record.state.Failed? <==> actions[i].end.Raised?)
            && (record.state.Canceled? <==> !actions[i].end.Raised? && actions[i].job.id in states[i].targeted)
  {
    RunKeepsInv(Sweeps, states, actions, i);
    assert Steps(Sweeps, states[i], actions[i], states[i + 1]);
  }

  /** A training's record is failed exactly if its run raised, and canceled exactly if it did not
      raise, came back without a summary, and a cancel hit it. */
  lemma TrainingVerdictIsExact(states: seq<Queue>, actions: seq<Action>, i: nat)
    requires IsRun(Trainings, states, actions) && i < |actions| && actions[i].Finish?
    ensures var record := states[i + 1].finished[|states[i].finished|];
            && states[i + 1].finished == states[i].finished + [record] && record.job == actions[i].job
            && (record.state.Failed? <==> actions[i].end.Raised?)
            && (record.state.Canceled? <==>
                  && (actions[i].end.EmbedCancelled? || actions[i].end == Returned(false))
                  && actions[i].job.id in states[i].targeted)
  {
    RunKeepsInv(Trainings, states, actions, i);
    assert Steps(Trainings, states[i], actions[i], states[i + 1]);
  }

  lemma {:induction false} TargetedGrows(policy: Policy, states: seq<Queue>, actions: seq<Action>, i: nat, j: nat)
    requires IsRun(policy, states, actions) && i <= j < |states|
    ensures states[i].targeted <= states[j].targeted
    decreases j
  {
    if i < j {
      TargetedGrows(policy, states, actions, i, j - 1);
      assert Steps(policy, states[j - 1], actions[j - 1], states[j - 1 + 1]);
    }
  }

  /** What is recorded of a job whose event is set. */
  function OnceAborted(end: RunEnd): Terminal {
    match end
    case Raised(_) => Failed
    case EmbedCancelled => Canceled
    case Returned(summary) => if summary then Done else Canceled
  }

  /** Once a running job's event is set it stays set while the job runs: no later action gives the
      job another event or clears this one. So an embed loop that aborted on a poll at point `i`
      finds the event set in its `finally` at point `j`, and is always recorded canceled; a run that
      came back with its summary is done however late it was targeted. */
  lemma AbortIsRecordedCanceled(states: seq<Queue>, actions: seq<Action>, i: nat, j: nat, job: Job)
    requires IsRun(Trainings, states, actions) && i <= j < |actions|
    requires states[i].running == Some(job) && states[i].stop && actions[j].Finish? && actions[j].job == job
    ensures states[j].stop
    ensures states[j + 1].finished == states[j].finished + [Record(job, OnceAborted(actions[j].end))]
  {
    RunKeepsInv(Trainings, states, actions, i);
    RunKeepsInv(Trainings, states, actions, j);
    TargetedGrows(Trainings, states, actions, i, j);
    assert Steps(Trainings, states[j], actions[j], states[j + 1]);
  }

  // --- Drops ---------------------------------------------------------------------------

  /** The ids of the jobs an action takes out of the queue before they run. */
  function Dropping(q: Queue, a: Action): set<nat> {
    match a
    case CancelJob(id) => if id in Ids(q.pending) then {id} else {}
    case ClearPending => Ids(q.pending)
    case StopAll => Ids(q.pending)
    case _ => {}
  }

  /** Exactly what each action drops: a cancel by id that one pending job, a clear and a stop all the
      pending ones, anything else none. */
  lemma DropsExactly(policy: Policy, q: Queue, a: Action)
    requires Inv(policy, q) && Enabled(q, a)
    ensures Apply(q, policy, a).dropped == q.dropped + Dropping(q, a)
  {
    match a
    case CancelJob(id) => if id in Ids(q.pending) { PendingIsNotRunning(q, id); }
    case Enqueue(_) =>
    case Cancel =>
    case ClearPending =>
    case StopAll =>
    case Finish(_, _) =>
  }

  /** What every action leaves live, in which order. No drop touches the running job, and the jobs
      not dropped keep their order: a cancel by id takes out that one pending job, a clear and a
      stop all leave the running one alone, a finish takes the first, an accepted request is last. */
  lemma OthersKeepTheirPlace(policy: Policy, q: Queue, a: Action)
    requires Inv(policy, q) && Enabled(q, a)
    ensures var r, live := Apply(q, policy, a), Live(Apply(q, policy, a));
            match a
            case Enqueue(job) => live == Live(q) || live == Live(q) + [job]
            case Cancel => live == Live(q)
            case CancelJob(id) => r.running == q.running && (id !in Ids(q.pending) ==> live == Live(q))
            case ClearPending => r.running == q.running && r.pending == []
            case StopAll => r.running == q.running && r.pending == []
            case Finish(_, _) => live == Live(q)[1..]
    ensures a.CancelJob? && a.id in Ids(q.pending) ==>
              exists k :: 0 <= k < |q.pending| && q.pending[k].id == a.id
                && Apply(q, policy, a).pending == q.pending[..k] + q.pending[k + 1..]
  {
    match a
    case Enqueue(job) => EnqueueAppends(policy, q, job);
    case CancelJob(id) =>
      if id in Ids(q.pending) {
        PendingIsNotRunning(q, id);
        TakesOut(q, policy, id);
      }
    case Finish(job, end) => FinishLeavesTheRest(policy, q, end);
    case Cancel =>
    case ClearPending =>
    case StopAll =>
  }

  lemma EnqueueAppends(policy: Policy, q: Queue, job: Job)
    requires Serial(q)
    ensures Live(Enqueued(q, policy, job)) == Live(q) || Live(Enqueued(q, policy, job)) == Live(q) + [job]
  {
    if Duplicate(q, policy, job.key).None? {
      assert Live(Enqueued(q, policy, job)) == Live(q) + [job];
    }
  }

  lemma PendingIsNotRunning(q: Queue, id: nat)
    requires InOrder(q) && id in Ids(q.pending)
    ensures q.running.Some? ==> q.running.value.id != id
  {
    if q.running.Some? {
      LiveAndFinishedAreDistinct(q);
      var all := Jobs(q.finished) + Live(q);
      var i :| 0 <= i < |q.pending| && q.pending[i].id == id;
      assert all[|q.finished|] == q.running.value && all[|q.finished| + 1 + i] == q.pending[i];
    }
  }

  lemma TakesOut(q: Queue, policy: Policy, id: nat)
    requires InOrder(q) && id in Ids(q.pending) && (q.running.Some? ==> q.running.value.id != id)
    ensures exists k :: 0 <= k < |q.pending| && q.pending[k].id == id
              && Apply(q, policy, CancelJob(id)).pending == q.pending[..k] + q.pending[k + 1..]
  {
    var k :| 0 <= k < |q.pending| && q.pending[k].id == id;
    PendingIsDistinct(q);
    RemoveAt(q.pending, k);
    assert Apply(q, policy, CancelJob(id)).pending == Without(q.pending, {id});
  }

  /** So in every run a job is dropped only by a cancel of its own id or by a clear, while it waits. */
  lemma {:induction false} DroppedWasAskedFor(policy: Policy, states: seq<Queue>, actions: seq<Action>, i: nat, id: nat)
    returns (k: nat)
    requires IsRun(policy, states, actions) && i < |states| && id in states[i].dropped
    ensures k < i && id in Ids(states[k].pending)
    ensures actions[k] == CancelJob(id) || actions[k].ClearPending? || actions[k].StopAll?
    decreases i
  {
    var q := states[i - 1];
    assert Steps(policy, q, actions[i - 1], states[i - 1 + 1]);
    RunKeepsInv(policy, states, actions, i - 1);
    DropsExactly(policy, q, actions[i - 1]);
    if id in q.dropped {
      k := DroppedWasAskedFor(policy, states, actions, i - 1, id);
    } else {
      k := i - 1;
    }
  }

  // --- Stopping everything -------------------------------------------------------------

  ghost predicate NoEnqueue(actions: seq<Action>, i: nat, j: nat)
    requires j <= |actions|
  {
    forall k :: i <= k < j ==> !actions[k].Enqueue?
  }

  /** After "stop all" and until the next request, nothing is promoted, and the job that was
      running keeps its event set until it finishes. */
  lemma {:induction false} StopAllPromotesNothing(policy: Policy, states: seq<Queue>, actions: seq<Action>,
          i: nat, j: nat)
    requires IsRun(policy, states, actions) && i < j < |states|
    requires actions[i].StopAll? && NoEnqueue(actions, i, j)
    ensures states[j].pending == []
    ensures states[j].running.Some? ==> states[j].running == states[i].running && states[j].stop
    decreases j
  {
    assert Steps(policy, states[j - 1], actions[j - 1], states[j - 1 + 1]);
    if i < j - 1 {
      StopAllPromotesNothing(policy, states, actions, i, j - 1);
      assert !actions[j - 1].Enqueue?;
      QuietStep(policy, states[j - 1], actions[j - 1]);
    }
  }

  lemma QuietStep(policy: Policy, q: Queue, a: Action)
    requires q.pending == [] && !a.Enqueue?
    ensures Apply(q, policy, a).pending == []
    ensures Apply(q, policy, a).running == if a.Finish? then None else q.running
    ensures !a.Finish? && q.stop ==> Apply(q, policy, a).stop
  {
    assert Without([], {}) == [];
  }

  /** Once that job has finished, the queue is idle and stays so. */
  lemma {:induction false} StopAllEndsIdle(policy: Policy, states: seq<Queue>, actions: seq<Action>, i: nat,
          k: nat, j: nat)
    requires IsRun(policy, states, actions) && i < k < j < |states|
    requires actions[i].StopAll? && NoEnqueue(actions, i, j) && actions[k].Finish?
    ensures Live(states[j]) == []
    decreases j
  {
    StopAllPromotesNothing(policy, states, actions, i, j - 1);
    assert Steps(policy, states[j - 1], actions[j - 1], states[j - 1 + 1]);
    assert !actions[j - 1].Enqueue?;
    QuietStep(policy, states[j - 1], actions[j - 1]);
    if k < j - 1 {
      StopAllEndsIdle(policy, states, actions, i, k, j - 1);
    }
  }
}
