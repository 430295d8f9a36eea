/** The managers themselves: fields changed under one lock, a stop event that is a separate object
    replaced at every promotion, and a deque searched and edited in place. Each method is one lock
    hold and is proved to be the `JobQueue` transition of the same name. */
module JobManager {
  import opened Wrappers
  import opened JobQueue

  /** `threading.Event`. */
  class Event {
    var isSet: bool

    constructor ()
      ensures !isSet
    {
      isSet := false;
    }
  }

  /** `AnalysisManager` with policy `Sweeps`, `TrainingManager` with policy `Trainings`. */
  class Manager {
    const policy: Policy
    var running: bool
    var currentJob: Option<Job>
    var stopEvent: Event
    var pending: seq<Job>
    var error: Option<string>
    var history: seq<Record>

    ghost var active: seq<Job>
    ghost var used: set<nat>
    ghost var accepted: seq<Job>
    ghost var dropped: set<nat>
    ghost var finished: seq<Record>
    ghost var targeted: set<nat>

    ghost function View(): Queue
      reads this, stopEvent
    {
      Queue(currentJob, stopEvent.isSet && running, pending, error, history,
            active, used, accepted, dropped, finished, targeted)
    }

    ghost predicate Valid()
      reads this, stopEvent
    {
      && (running <==> currentJob.Some?)
      && Inv(policy, View())
    }

    constructor (policy: Policy)
      ensures Valid() && View() == EMPTY && this.policy == policy && fresh(stopEvent)
    {
      this.policy := policy;
      running, currentJob, pending, error, history := false, None, [], None, [];
      stopEvent := new Event();
      active, used, accepted, dropped, finished, targeted := [], {}, [], {}, [], {};
      new;
      assert Without([], {}) == [];
    }

    /** `_promote_locked`. The old event is left as it was; a fresh one is installed. */
    method Promote() returns (started: bool)
      requires running <==> currentJob.Some?
      modifies this
      ensures View() == Promoted(old(View()))
      ensures running <==> currentJob.Some?
      ensures started <==> old(!running && pending != [])
      ensures if started then fresh(stopEvent) else stopEvent == old(stopEvent)
    {
      started := !running && pending != [];
      if started {
        var job := pending[0];
        pending := pending[1..];
        currentJob := Some(job);
        error := None;
        stopEvent := new Event();
        running := true;
        active := active + [job];
      }
    }

    /** `_enqueue`. */
    method Enqueue(job: Job) returns (position: nat, deduped: bool, started: bool)
      requires Valid() && job.id !in used
      modifies this
      ensures Valid() && View() == Apply(old(View()), policy, JobQueue.Enqueue(job))
      ensures (position, deduped) == Reported(old(View()), policy, job)
      ensures started <==> old(!running)
      ensures if started then fresh(stopEvent) else stopEvent == old(stopEvent)
    {
      StepKeepsInv(policy, View(), JobQueue.Enqueue(job));
      used := used + {job.id};
      started := false;
      deduped, position := Locate(job.key);
      if !deduped {
        position, started := Append(job);
      }
    }

    /** The two duplicate checks: the running job, and for sweeps the pending ones. */
    method Locate(key: Key) returns (deduped: bool, position: nat)
      requires running <==> currentJob.Some?
      ensures match Duplicate(View(), policy, key)
              case None => !deduped && position == 0
              case Some(i) => deduped && position == i
    {
      deduped, position := false, 0;
      if running && currentJob.value.key == key {
        deduped := true;
      } else if policy.Sweeps? {
        deduped, position := FindPending(key);
      }
    }

    method Append(job: Job) returns (position: nat, started: bool)
      requires running <==> currentJob.Some?
      modifies this
      ensures View() == Promoted(old(View()).(pending := old(pending) + [job], accepted := old(accepted) + [job]))
      ensures running <==> currentJob.Some?
      ensures started <==> old(!running)
      ensures position == if old(running) then |old(pending)| + 1 else 0
      ensures if started then fresh(stopEvent) else stopEvent == old(stopEvent)
    {
      position, started := 0, false;
      pending := pending + [job];
      accepted := accepted + [job];
      if running {
        position := |pending|;
      } else {
        started := Promote();
      }
    }

    /** The loop over `enumerate(self._pending)`. */
    method FindPending(key: Key) returns (found: bool, position: nat)
      ensures match FindKey(pending, key)
              case None => !found && position == 0
              case Some(i) => found && position == i + 1
    {
      var index := 0;
      found, position := false, 0;
      while index < |pending| && !found
        invariant 0 <= index <= |pending|
        invariant found ==> FindKey(pending, key) == Some(position - 1) && position >= 1
        invariant !found ==> position == 0 && forall i :: 0 <= i < index ==> pending[i].key != key
        decreases |pending| - index, !found
      {
        if pending[index].key == key {
          FirstKey(pending, key, index);
          found, position := true, index + 1;
        }
        index := index + 1;
      }
    }

    method Cancel()
      requires Valid()
      modifies stopEvent, this`targeted
      ensures Valid() && View() == Apply(old(View()), policy, JobQueue.Cancel)
    {
      StepKeepsInv(policy, View(), JobQueue.Cancel);
      if running {
        stopEvent.isSet := true;
        targeted := targeted + {currentJob.value.id};
      }
    }

    static method FindId(jobs: seq<Job>, id: nat) returns (index: nat)
      ensures index <= |jobs| && forall i :: 0 <= i < index ==> jobs[i].id != id
      ensures index < |jobs| ==> jobs[index].id == id
      ensures index < |jobs| <==> id in Ids(jobs)
    {
      index := 0;
      while index < |jobs| && jobs[index].id != id
        invariant index <= |jobs| && forall i :: 0 <= i < index ==> jobs[i].id != id
      {
        index := index + 1;
      }
    }

    /** `cancel_job`: the running job's event, or one pending job out of the deque, or nothing. */
    method CancelJob(id: nat)
      requires Valid()
      modifies stopEvent, this`targeted, this`pending, this`dropped
      ensures Valid() && View() == Apply(old(View()), policy, JobQueue.CancelJob(id))
    {
      StepKeepsInv(policy, View(), JobQueue.CancelJob(id));
      if running && currentJob.value.id == id {
        stopEvent.isSet := true;
        targeted := targeted + {id};
      } else {
        var index := FindId(pending, id);
        if index < |pending| {
          PendingIsDistinct(View());
          RemoveAt(pending, index);
          assert pending[index].id in Ids(pending);
          pending := pending[..index] + pending[index + 1..];
          dropped := dropped + {id};
        }
      }
    }

    method ClearPending()
      requires Valid()
      modifies this`pending, this`dropped
      ensures Valid() && View() == Apply(old(View()), policy, JobQueue.ClearPending)
    {
      StepKeepsInv(policy, View(), JobQueue.ClearPending);
      dropped := dropped + Ids(pending);
      pending := [];
    }

    method StopAll()
      requires Valid()
      modifies stopEvent, this`pending, this`dropped, this`targeted
      ensures Valid() && View() == Apply(old(View()), policy, JobQueue.StopAll)
    {
      StepKeepsInv(policy, View(), JobQueue.StopAll);
      dropped := dropped + Ids(pending);
      pending := [];
      if running {
        stopEvent.isSet := true;
        targeted := targeted + {currentJob.value.id};
      }
    }

    /** The worker's `finally`: one lock hold that records, clears and promotes. `end` is how the
        run function came back. */
    method RecordAndPromote(job: Job, end: RunEnd) returns (started: bool)
      requires Valid() && job in active
      modifies this
      ensures Valid() && View() == Apply(old(View()), policy, JobQueue.Finish(job, end))
      ensures started <==> old(pending != [])
      ensures if started then fresh(stopEvent) else stopEvent == old(stopEvent)
    {
      StepKeepsInv(policy, View(), JobQueue.Finish(job, end));
      RecordOutcome(job, end);
      started := Promote();
    }

    method RecordOutcome(job: Job, end: RunEnd)
      requires running
      modifies this`error, this`history, this`finished, this`active, this`running, this`currentJob
      ensures View() == Recorded(old(View()), policy, job, end)
      ensures !running && currentJob.None?
    {
      var state: Terminal;
      if end.Raised? {
        state := Failed;
        error := Some(end.error);
      } else if end.Returned? && end.summary && policy.Trainings? {
        state := Done;
      } else if stopEvent.isSet {
        state := Canceled;
      } else {
        state := Done;
      }
      var record := Record(job, state);
      history := Recent(history, record);
      finished := finished + [record];
      active := Remove(active, job);
      running := false;
      currentJob := None;
    }
  }

  lemma {:induction false} FirstKey(jobs: seq<Job>, key: Key, index: nat)
    requires index < |jobs| && jobs[index].key == key
    requires forall i :: 0 <= i < index ==> jobs[i].key != key
    ensures FindKey(jobs, key) == Some(index)
  {
    if index > 0 {
      FirstKey(jobs[1..], key, index - 1);
    }
  }
}
