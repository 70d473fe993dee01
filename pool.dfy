/** `ThreadPool` in `mopidy_youtube/youtube.py`: a list of pending jobs used as a
    stack and a count of live worker threads, bounded by `threads_max`.  Each section
    that runs under `lock` is one atomic step here: `run`, a worker taking a job, and
    a worker finding no job and exiting.  Threads themselves are not modelled. */
module Pool {
  import opened Wrappers

  /** `ThreadPool.threads_max`. */
  const ThreadsMax: nat := 2

  /** The shared bookkeeping: `jobs` (last element on top) and `threads_active`. */
  datatype PoolState<J> = PoolState(jobs: seq<J>, active: nat)

  /** The pool is within its bound, and a pending job always has a live worker that
      will reach it. */
  predicate Healthy<J>(s: PoolState<J>) {
    s.active <= ThreadsMax && (|s.jobs| > 0 ==> s.active > 0)
  }

  /** `run(f, args)`: push the job, and start a worker when fewer than `threads_max` run. */
  function RunStep<J>(s: PoolState<J>, job: J): (r: PoolState<J>)
    ensures |r.jobs| == |s.jobs| + 1 && r.jobs[|s.jobs|] == job
    ensures r.active > 0
  {
    PoolState(s.jobs + [job], if s.active < ThreadsMax then s.active + 1 else s.active)
  }

  /** One pass of a worker's loop under the lock: pop the newest job, or, with no job
      left, count itself out.  The job taken is the second component. */
  function TakeStep<J>(s: PoolState<J>): (r: (PoolState<J>, Option<J>))
    requires s.active > 0
    ensures r.1.Some? <==> |s.jobs| > 0
    ensures r.1.Some? ==> s.jobs == r.0.jobs + [r.1.value]
  {
    if |s.jobs| > 0 then (PoolState(s.jobs[..|s.jobs| - 1], s.active), Some(s.jobs[|s.jobs| - 1]))
    else (PoolState(s.jobs, s.active - 1), None)
  }

  /** `run` applied to each job in turn. */
  function RunAll<J>(s: PoolState<J>, js: seq<J>): PoolState<J>
    decreases |js|
  {
    if js == [] then s else RunAll(RunStep(s, js[0]), js[1..])
  }

  /** A job is always added at the top, and a worker is started exactly when fewer than
      `threads_max` were running; the pool stays healthy. */
  lemma RunStepSpec<J>(s: PoolState<J>, job: J)
    requires s.active <= ThreadsMax
    ensures var t := RunStep(s, job);
            t.jobs == s.jobs + [job] && t.jobs[|t.jobs| - 1] == job
            && (t.active == s.active + 1 <==> s.active < ThreadsMax)
            && (t.active == s.active <==> s.active == ThreadsMax)
            && Healthy(t)
  {
  }

  /** A worker takes the most recently added job and leaves the rest in order; it
      exits, and only then is it counted out, when no job is left.  Health is kept. */
  lemma TakeStepSpec<J>(s: PoolState<J>)
    requires Healthy(s) && s.active > 0
    ensures var (t, job) := TakeStep(s);
            (job.Some? <==> |s.jobs| > 0)
            && (job.Some? ==> s.jobs == t.jobs + [job.value] && t.active == s.active)
            && (job.None? ==> t.jobs == [] && t.active == s.active - 1)
            && Healthy(t)
  {
  }

  /** Last in, first out: a job run on a busy pool is the next one taken. */
  lemma RunThenTake<J>(s: PoolState<J>, job: J)
    requires Healthy(s)
    ensures RunStep(s, job).active > 0
    ensures TakeStep(RunStep(s, job)) == (s.(active := RunStep(s, job).active), Some(job))
  {
    assert (s.jobs + [job])[..|s.jobs|] == s.jobs;
  }

  /** Submitting `n` jobs appends them in order and starts workers up to the bound:
      `active` becomes `min(threads_max, active + n)`. */
  lemma {:induction false} RunAllSpec<J>(s: PoolState<J>, js: seq<J>)
    requires s.active <= ThreadsMax
    ensures RunAll(s, js).jobs == s.jobs + js
    ensures RunAll(s, js).active == Min(ThreadsMax, s.active + |js|)
    ensures Healthy(s) ==> Healthy(RunAll(s, js))
    decreases |js|
  {
    if js != [] {
      RunAllSpec(RunStep(s, js[0]), js[1..]);
      assert s.jobs + js == s.jobs + [js[0]] + js[1..];
    }
  }

  /** Submitting one more job is one more `run` step. */
  lemma {:induction false} RunAllSnoc<J>(s: PoolState<J>, js: seq<J>, job: J)
    ensures RunAll(s, js + [job]) == RunStep(RunAll(s, js), job)
    decreases |js|
  {
    if js != [] {
      assert (js + [job])[1..] == js[1..] + [job];
      RunAllSnoc(RunStep(s, js[0]), js[1..], job);
    } else {
      assert RunAll(RunStep(s, job), []) == RunStep(s, job);
    }
  }

  /** Starting from an idle pool, three submissions start only two workers. */
  lemma ThreeJobsTwoWorkers<J>(a: J, b: J, c: J)
    ensures RunAll(PoolState([], 0), [a, b, c]) == PoolState([a, b, c], 2)
  {
    RunAllSpec(PoolState([], 0), [a, b, c]);
  }

  /** The module-level pool. */
  class ThreadPool<J> {
    var jobs: seq<J>
    var threadsActive: nat

    function State(): PoolState<J>
      reads this
    {
      PoolState(jobs, threadsActive)
    }

    ghost predicate Valid()
      reads this
    {
      Healthy(State())
    }

    constructor ()
      ensures Valid() && jobs == [] && threadsActive == 0
    {
      jobs := [];
      threadsActive := 0;
    }

    /** `ThreadPool.run`; `started` tells whether a new worker thread was started. */
    method Run(job: J) returns (started: bool)
      requires Valid()
      modifies this
      ensures State() == RunStep(old(State()), job)
      ensures started <==> old(threadsActive) < ThreadsMax
      ensures Valid()
    {
      RunStepSpec(State(), job);
      jobs := jobs + [job];
      started := threadsActive < ThreadsMax;
      if started {
        threadsActive := threadsActive + 1;
      }
    }

    /** One locked pass of `ThreadPool.worker` by a live worker: `Some(job)` to run next,
        or `None` when the worker has counted itself out. */
    method Take() returns (job: Option<J>)
      requires Valid() && threadsActive > 0
      modifies this
      ensures (State(), job) == TakeStep(old(State()))
      ensures Valid()
    {
      TakeStepSpec(State());
      if |jobs| > 0 {
        job := Some(jobs[|jobs| - 1]);
        jobs := jobs[..|jobs| - 1];
      } else {
        job := None;
        threadsActive := threadsActive - 1;
      }
    }
  }
}
