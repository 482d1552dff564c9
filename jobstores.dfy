/** The scheduler's job store over the `DjangoJob` table
    (cmsplugin_rss_import/jobstores.py, cmsplugin_rss_import/models.py class DjangoJob).
    The table is a map from the unique `job_id` to the row's next run time
    and pickled state; run times are integers. Turning a state back into a
    scheduler job is a foreign call and comes in as `restore`, which
    answers None when the scheduler's `__setstate__` raises. */
module JobStores {
  import opened Wrappers

  /** A job's state as `__getstate__` returns it. */
  type State = map<string, string>

  /** A scheduler job: its id, next run time (None when paused) and state. */
  datatype Job = Job(id: string, nextRunTime: Option<int>, state: State)

  /** One `DjangoJob` row without its key; both columns may be null. */
  datatype Row = Row(nextRunTime: Option<int>, state: Option<State>)

  datatype StoreError =
    | ConflictingId(id: string)   // ConflictingIdError
    | JobLookup(id: string)       // JobLookupError
    | RestoreFailed               // raised by the scheduler's __setstate__

  /** `_reconstitute_job` on a row's state: a null state raises as well,
      since the method writes into it. */
  function Restore(row: Row, restore: State -> Option<Job>): Option<Job> {
    if row.state.Some? then restore(row.state.value) else None
  }

  /** The `filter(**filters)` of `_get_jobs`: every row, or with
      `next_run_time__lte=now` the rows with a run time not after `now`. */
  predicate Selected(row: Row, due: Option<int>) {
    due.None? || (row.nextRunTime.Some? && row.nextRunTime.value <= due.value)
  }

  /** The ids among `ids` whose row fails to restore. */
  function FailedAmong(jobs: map<string, Row>, ids: set<string>, restore: State -> Option<Job>): set<string> {
    set id | id in ids && id in jobs && Restore(jobs[id], restore).None?
  }

  /** The ids among `ids` whose row restores. */
  function RestoredAmong(jobs: map<string, Row>, ids: set<string>, restore: State -> Option<Job>): set<string> {
    set id | id in ids && id in jobs && Restore(jobs[id], restore).Some?
  }

  /** The jobs the rows of `ids` restore to. */
  function JobsAmong(jobs: map<string, Row>, ids: set<string>, restore: State -> Option<Job>): set<Job> {
    set id | id in ids && id in jobs && Restore(jobs[id], restore).Some? :: Restore(jobs[id], restore).value
  }

  /** The ids `_get_jobs` selects. */
  function SelectedIds(jobs: map<string, Row>, due: Option<int>): set<string> {
    set id | id in jobs && Selected(jobs[id], due)
  }

  /** Taking one more id: it joins the failed or the restored ones. */
  lemma AmongStep(jobs: map<string, Row>, ids: set<string>, x: string, restore: State -> Option<Job>)
    requires x in jobs && x !in ids
    ensures Restore(jobs[x], restore).None? ==>
      FailedAmong(jobs, ids + {x}, restore) == FailedAmong(jobs, ids, restore) + {x}
      && RestoredAmong(jobs, ids + {x}, restore) == RestoredAmong(jobs, ids, restore)
      && JobsAmong(jobs, ids + {x}, restore) == JobsAmong(jobs, ids, restore)
    ensures Restore(jobs[x], restore).Some? ==>
      FailedAmong(jobs, ids + {x}, restore) == FailedAmong(jobs, ids, restore)
      && RestoredAmong(jobs, ids + {x}, restore) == RestoredAmong(jobs, ids, restore) + {x}
      && JobsAmong(jobs, ids + {x}, restore) == JobsAmong(jobs, ids, restore) + {Restore(jobs[x], restore).value}
  {
  }

  /** A finite, non-empty set of run times has a least element. */
  lemma {:induction false} HasEarliest(times: set<int>)
    requires times != {}
    ensures exists m :: m in times && forall t :: t in times ==> m <= t
  {
    if forall y :: y !in times {
      assert false;
    }
    var x :| x in times;
    if times != {x} {
      var rest := times - {x};
      assert times == rest + {x};
      HasEarliest(rest);
      var m :| m in rest && forall t :: t in rest ==> m <= t;
      if x < m {
        assert forall t :: t in times ==> x <= t;
      } else {
        assert forall t :: t in times ==> m <= t;
      }
    }
  }

  class DjangoJobStore {
    var jobs: map<string, Row>

    constructor ()
      ensures jobs == map[]
    {
      jobs := map[];
    }

    /** `lookup_job`: None when there is no row with this id or its state is
        null or empty; otherwise the restored job, and the error of
        `__setstate__` when that raises (it is not caught here). */
    method LookupJob(id: string, restore: State -> Option<Job>) returns (r: Result<Option<Job>, StoreError>)
      ensures id !in jobs || jobs[id].state.None? || jobs[id].state.value == map[] ==> r == Ok(None)
      ensures id in jobs && jobs[id].state.Some? && jobs[id].state.value != map[] ==>
        (restore(jobs[id].state.value).Some? ==> r == Ok(restore(jobs[id].state.value)))
        && (restore(jobs[id].state.value).None? ==> r == Err(RestoreFailed))
    {
      var jobState: Option<State> := None;
      if id in jobs {
        jobState := jobs[id].state;
      }
      if jobState.None? || jobState.value == map[] {
        return Ok(None);
      }
      var job := restore(jobState.value);
      if job.None? {
        return Err(RestoreFailed);
      }
      return Ok(job);
    }

    /** `add_job`: a new row for the job, unless its id is taken. */
    method AddJob(job: Job) returns (r: Outcome<StoreError>)
      modifies this
      ensures job.id in old(jobs) ==> r == Fail(ConflictingId(job.id)) && jobs == old(jobs)
      ensures job.id !in old(jobs) ==> r == Pass && jobs == old(jobs)[job.id := Row(job.nextRunTime, Some(job.state))]
    {
      if job.id in jobs {
        return Fail(ConflictingId(job.id));
      }
      jobs := jobs[job.id := Row(job.nextRunTime, Some(job.state))];
      return Pass;
    }

    /** `update_job`: the row with the job's id takes its run time and
        state; without such a row nothing changes. */
    method UpdateJob(job: Job)
      modifies this
      ensures jobs.Keys == old(jobs).Keys
      ensures job.id in jobs ==> jobs[job.id] == Row(job.nextRunTime, Some(job.state))
      ensures forall id :: id in jobs && id != job.id ==> jobs[id] == old(jobs)[id]
    {
      if job.id in jobs {
        jobs := jobs[job.id := Row(job.nextRunTime, Some(job.state))];
      }
    }

    /** `remove_job`: the row goes; an error when there was none. */
    method RemoveJob(id: string) returns (r: Outcome<StoreError>)
      modifies this
      ensures jobs == old(jobs) - {id}
      ensures r == (if id in old(jobs) then Pass else Fail(JobLookup(id)))
    {
      var deleted := if id in jobs then 1 else 0;
      jobs := jobs - {id};
      if deleted == 0 {
        return Fail(JobLookup(id));
      }
      return Pass;
    }

    /** `_get_jobs`: restore every selected row; the rows that fail to
        restore are deleted afterwards, all others stay. Each restored id
        gives one job. */
    method GetJobs(due: Option<int>, restore: State -> Option<Job>) returns (restored: seq<Job>)
      modifies this
      ensures var selected := SelectedIds(old(jobs), due);
        jobs == old(jobs) - FailedAmong(old(jobs), selected, restore)
        && |restored| == |RestoredAmong(old(jobs), selected, restore)|
        && forall j :: j in restored <==> j in JobsAmong(old(jobs), selected, restore)
    {
      var jobStates := SelectedIds(jobs, due);
      ghost var selected := jobStates;
      ghost var done: set<string> := {};
      restored := [];
      var failedJobIds: set<string> := {};
      while jobStates != {}
        invariant jobs == old(jobs)
        invariant jobStates + done == selected && jobStates !! done
        invariant selected <= jobs.Keys
        invariant failedJobIds == FailedAmong(jobs, done, restore)
        invariant |restored| == |RestoredAmong(jobs, done, restore)|
        invariant forall j :: j in restored <==> j in JobsAmong(jobs, done, restore)
        decreases |jobStates|
      {
        var jobId :| jobId in jobStates;
        AmongStep(jobs, done, jobId, restore);
        var job := Restore(jobs[jobId], restore);
        if job.Some? {
          restored := restored + [job.value];
        } else {
          failedJobIds := failedJobIds + {jobId};
        }
        done := done + {jobId};
        jobStates := jobStates - {jobId};
      }
      assert done == selected;
      jobs := jobs - failedJobIds;
    }

    /** `get_due_jobs`: `_get_jobs` on the rows due by `now`; the ones of
        them that fail to restore are deleted. */
    method GetDueJobs(now: int, restore: State -> Option<Job>) returns (restored: seq<Job>)
      modifies this
      ensures forall id :: id in jobs <==>
        id in old(jobs) && !(Selected(old(jobs)[id], Some(now)) && Restore(old(jobs)[id], restore).None?)
      ensures forall j :: j in restored <==>
        exists id :: id in old(jobs) && old(jobs)[id].nextRunTime.Some? && old(jobs)[id].nextRunTime.value <= now
          && Restore(old(jobs)[id], restore) == Some(j)
    {
      restored := GetJobs(Some(now), restore);
    }

    /** The run times in the table that are not null. */
    function RunTimes(): set<int>
      reads this
    {
      set id | id in jobs && jobs[id].nextRunTime.Some? :: jobs[id].nextRunTime.value
    }

    /** `get_next_run_time`: the earliest run time that is not null, or None
        when every job is paused or there is none. */
    method GetNextRunTime() returns (r: Option<int>)
      ensures r.None? <==> forall id :: id in jobs ==> jobs[id].nextRunTime.None?
      ensures r.Some? ==> exists id :: id in jobs && jobs[id].nextRunTime == r
      ensures r.Some? ==> forall id :: id in jobs && jobs[id].nextRunTime.Some? ==> r.value <= jobs[id].nextRunTime.value
    {
      var times := RunTimes();
      forall id | id in jobs && jobs[id].nextRunTime.Some? ensures jobs[id].nextRunTime.value in times {
      }
      if times == {} {
        return None;
      }
      HasEarliest(times);
      var first :| first in times && forall t :: t in times ==> first <= t;
      return Some(first);
    }
  }
}
