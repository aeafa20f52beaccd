/** The throttled fetch queue (`enqueueFetch` / `runQueue`): a FIFO list of
    jobs drained by one worker loop, guarded by the `running` flag.

    The worker loop suspends twice per job: while the request is out and
    during the fixed delay afterwards. Each resumption is a method here, so
    that a caller may enqueue between any two of them:
    - `Enqueue` pushes a job and calls `RunQueue`, which returns at once
      when the loop is already running, and otherwise starts it;
    - `Complete` is the request settling: the cache write on success, then
      the job's `onDone`, or `onDone` with a zero record on failure;
    - `DelayElapsed` is the end of the delay: the loop takes the next job or
      stops.
    The delay's length and the clock are not modelled; a failed request and
    the clock reading it reports arrive as a `FetchOutcome`. */
module Queue {
  import opened Wrappers
  import opened Units

  /** A queued fetch: the unit to fetch and the element whose `onDone`
      callback it carries. */
  datatype Job = Job(unitId: string, el: nat)

  /** How one request ended: the page loaded (its info items, and the clock
      reading taken when it was parsed), or the request or its parse failed
      (and the clock reading taken in the `catch`). */
  datatype FetchOutcome = Loaded(items: seq<InfoItem>, at: int) | Failed(at: int)

  /** What `onDone` receives for an outcome; a failure yields the zero record. */
  function OutcomeCosts(o: FetchOutcome): (c: Costs)
    ensures o.Failed? ==> c.rp == 0 && c.sl == 0
    ensures c.ts == o.at
  {
    match o
    case Loaded(items, at) => PageCosts(items, at)
    case Failed(at) => Costs(0, 0, at)
  }

  /** What the worker does that others can observe: cache writes and calls of
      a job's `onDone`. */
  datatype Event = CacheWrite(key: string, costs: Costs) | Callback(job: Job, costs: Costs)

  /** The events of one job: on success the cache write under the unit's key
      and then `onDone`; on failure `onDone` alone. */
  function JobEvents(j: Job, o: FetchOutcome): (s: seq<Event>) {
    match o
    case Loaded(_, _) => [CacheWrite(Key(j.unitId), OutcomeCosts(o)), Callback(j, OutcomeCosts(o))]
    case Failed(_) => [Callback(j, OutcomeCosts(o))]
  }

  /** The events of running `js` in order, the k-th job ending as `os[k]`. */
  function Trace(js: seq<Job>, os: seq<FetchOutcome>): (s: seq<Event>)
    requires |js| == |os|
  {
    if js == [] then []
    else Trace(js[..|js| - 1], os[..|os| - 1]) + JobEvents(js[|js| - 1], os[|os| - 1])
  }

  /** The `onDone` calls of a log, in order. */
  function Callbacks(log: seq<Event>): (s: seq<(Job, Costs)>) {
    if log == [] then []
    else
      var e := log[|log| - 1];
      Callbacks(log[..|log| - 1]) + (if e.Callback? then [(e.job, e.costs)] else [])
  }

  /** The jobs whose `onDone` has been called, in call order. */
  function CallbackJobs(log: seq<Event>): (s: seq<Job>) {
    if log == [] then []
    else
      var e := log[|log| - 1];
      CallbackJobs(log[..|log| - 1]) + (if e.Callback? then [e.job] else [])
  }

  /** The store after applying the cache writes of `log` to `store`. */
  function ApplyWrites(store: map<string, Costs>, log: seq<Event>): (m: map<string, Costs>) {
    if log == [] then store
    else
      var e := log[|log| - 1];
      var s := ApplyWrites(store, log[..|log| - 1]);
      if e.CacheWrite? then s[e.key := e.costs] else s
  }

  lemma {:induction false} CallbackJobsAppend(a: seq<Event>, b: seq<Event>)
    ensures CallbackJobs(a + b) == CallbackJobs(a) + CallbackJobs(b)
    decreases |b|
  {
    if b == [] {
      assert a + b == a;
    } else {
      assert (a + b)[..|a + b| - 1] == a + b[..|b| - 1];
      CallbackJobsAppend(a, b[..|b| - 1]);
    }
  }

  lemma {:induction false} CallbacksAppend(a: seq<Event>, b: seq<Event>)
    ensures Callbacks(a + b) == Callbacks(a) + Callbacks(b)
    decreases |b|
  {
    if b == [] {
      assert a + b == a;
    } else {
      assert (a + b)[..|a + b| - 1] == a + b[..|b| - 1];
      CallbacksAppend(a, b[..|b| - 1]);
    }
  }

  lemma {:induction false} ApplyWritesAppend(s: map<string, Costs>, a: seq<Event>, b: seq<Event>)
    ensures ApplyWrites(s, a + b) == ApplyWrites(ApplyWrites(s, a), b)
    decreases |b|
  {
    if b == [] {
      assert a + b == a;
    } else {
      assert (a + b)[..|a + b| - 1] == a + b[..|b| - 1];
      ApplyWritesAppend(s, a, b[..|b| - 1]);
    }
  }

  lemma SingleEvent(s: map<string, Costs>, e: Event)
    ensures CallbackJobs([e]) == if e.Callback? then [e.job] else []
    ensures Callbacks([e]) == if e.Callback? then [(e.job, e.costs)] else []
    ensures ApplyWrites(s, [e]) == if e.CacheWrite? then s[e.key := e.costs] else s
  {
    assert [e][..0] == [];
  }

  lemma JobEventsFacts(s: map<string, Costs>, j: Job, o: FetchOutcome)
    ensures CallbackJobs(JobEvents(j, o)) == [j]
    ensures Callbacks(JobEvents(j, o)) == [(j, OutcomeCosts(o))]
    ensures ApplyWrites(s, JobEvents(j, o)) ==
      if o.Loaded? then s[Key(j.unitId) := OutcomeCosts(o)] else s
  {
    var c := OutcomeCosts(o);
    var w := CacheWrite(Key(j.unitId), c);
    var cb := Callback(j, c);
    SingleEvent(s, cb);
    if o.Loaded? {
      assert JobEvents(j, o) == [w] + [cb];
      SingleEvent(s, w);
      SingleEvent(s[w.key := c], cb);
      CallbackJobsAppend([w], [cb]);
      CallbacksAppend([w], [cb]);
      ApplyWritesAppend(s, [w], [cb]);
    }
  }

  /** Every job's `onDone` fires exactly once, in the order the jobs ran. */
  lemma {:induction false} TraceCallbackOrder(js: seq<Job>, os: seq<FetchOutcome>)
    requires |js| == |os|
    ensures CallbackJobs(Trace(js, os)) == js
  {
    if js != [] {
      var n := |js| - 1;
      TraceCallbackOrder(js[..n], os[..n]);
      CallbackJobsAppend(Trace(js[..n], os[..n]), JobEvents(js[n], os[n]));
      JobEventsFacts(map[], js[n], os[n]);
      assert js == js[..n] + [js[n]];
    }
  }

  /** The k-th `onDone` carries what the k-th request yielded: the parsed
      page, or the zero record when the request failed. */
  lemma {:induction false} TraceCallbackCosts(js: seq<Job>, os: seq<FetchOutcome>)
    requires |js| == |os|
    ensures |Callbacks(Trace(js, os))| == |js|
    ensures forall k :: 0 <= k < |js| ==> Callbacks(Trace(js, os))[k] == (js[k], OutcomeCosts(os[k]))
  {
    if js != [] {
      var n := |js| - 1;
      TraceCallbackCosts(js[..n], os[..n]);
      CallbacksAppend(Trace(js[..n], os[..n]), JobEvents(js[n], os[n]));
      JobEventsFacts(map[], js[n], os[n]);
    }
  }

  /** A failed request leaves the cache as it was; a loaded one writes the
      parsed record under `KEY_PREFIX + unitId`, before its `onDone`. */
  lemma JobStore(s: map<string, Costs>, j: Job, o: FetchOutcome)
    ensures ApplyWrites(s, JobEvents(j, o)) ==
      if o.Loaded? then s[Key(j.unitId) := OutcomeCosts(o)] else s
    ensures o.Loaded? ==>
      JobEvents(j, o) == [CacheWrite(Key(j.unitId), OutcomeCosts(o)), Callback(j, OutcomeCosts(o))]
    ensures o.Failed? ==> JobEvents(j, o) == [Callback(j, Costs(0, 0, o.at))]
  {
    JobEventsFacts(s, j, o);
  }

  lemma TraceStep(js: seq<Job>, os: seq<FetchOutcome>, i: nat)
    requires |js| == |os| && i < |js|
    ensures Trace(js[..i + 1], os[..i + 1]) == Trace(js[..i], os[..i]) + JobEvents(js[i], os[i])
  {
    assert js[..i + 1][..i] == js[..i];
    assert os[..i + 1][..i] == os[..i];
  }

  /** The bookkeeping of one turn of the drain loop: the events of the
      `i`-th job extend the trace of the turns before it, in the log and in
      the store. */
  lemma DrainStep(pending: seq<Job>, os: seq<FetchOutcome>, i: nat,
                  log0: seq<Event>, store0: map<string, Costs>,
                  log1: seq<Event>, store1: map<string, Costs>,
                  log2: seq<Event>, store2: map<string, Costs>)
    requires |pending| == |os| && i < |pending|
    requires log1 == log0 + Trace(pending[..i], os[..i])
    requires store1 == ApplyWrites(store0, Trace(pending[..i], os[..i]))
    requires log2 == log1 + JobEvents(pending[i], os[i])
    requires store2 == ApplyWrites(store1, JobEvents(pending[i], os[i]))
    ensures log2 == log0 + Trace(pending[..i + 1], os[..i + 1])
    ensures store2 == ApplyWrites(store0, Trace(pending[..i + 1], os[..i + 1]))
  {
    var t := Trace(pending[..i], os[..i]);
    var e := JobEvents(pending[i], os[i]);
    TraceStep(pending, os, i);
    LogStep(log0, t, e);
    ApplyWritesAppend(store0, t, e);
  }

  lemma LogStep(log0: seq<Event>, t: seq<Event>, e: seq<Event>)
    ensures log0 + t + e == log0 + (t + e)
  {
  }

  /** The jobs from `i` on are the `i`-th job and the jobs after it. */
  lemma RestStep(pending: seq<Job>, i: nat)
    requires i < |pending|
    ensures pending[i..] != [] && pending[i..][0] == pending[i] && pending[i..][1..] == pending[i + 1..]
  {
  }

  lemma HeadOfPending(j: Job, js: seq<Job>, p: seq<Job>)
    requires [j] + js == p
    ensures p != [] && j == p[0] && js == p[1..]
  {
    assert p[1..] == ([j] + js)[1..];
  }

  /** The module-level `queue` array and `running` flag, with the cache the
      jobs write to and a log of what the worker did. */
  class FetchQueue {
    var jobs: seq<Job>
    var running: bool
    /** The job `runQueue` has shifted off and whose request is out. */
    var inFlight: Option<Job>
    var store: map<string, Costs>
    var log: seq<Event>
    /** Every job ever enqueued, in enqueue order. */
    ghost var enqueued: seq<Job>
    /** The jobs whose `onDone` has been called, in call order. */
    ghost var finished: seq<Job>

    /** The jobs not yet called back: the one in flight, then the queue. */
    function Pending(): (s: seq<Job>)
      reads this
    {
      (if inFlight.Some? then [inFlight.value] else []) + jobs
    }

    /** What holds at every point where the worker is suspended. */
    ghost predicate Core()
      reads this
    {
      && (!running ==> inFlight == None)
      && enqueued == finished + Pending()
      && CallbackJobs(log) == finished
    }

    /** Jobs are called back strictly in enqueue order, at most one request
        is out at a time, and an idle loop leaves nothing queued. */
    ghost predicate Valid()
      reads this
    {
      Core() && (!running ==> jobs == [])
    }

    constructor (cache: map<string, Costs>)
      ensures Valid()
      ensures jobs == [] && !running && inFlight == None && log == [] && enqueued == [] && finished == []
      ensures store == cache
    {
      jobs, running, inFlight := [], false, None;
      store, log := cache, [];
      enqueued, finished := [], [];
    }

    /** `enqueueFetch`: push, then `runQueue`. While the loop runs this only
        appends; otherwise the loop starts and takes the job at once. */
    method Enqueue(job: Job)
      requires Valid()
      modifies this
      ensures Valid() && running
      ensures enqueued == old(enqueued) + [job] && finished == old(finished)
      ensures store == old(store) && log == old(log)
      ensures old(running) ==> jobs == old(jobs) + [job] && inFlight == old(inFlight)
      ensures !old(running) ==> jobs == [] && inFlight == Some(job)
      ensures Pending() == old(Pending()) + [job]
    {
      ghost var before := Pending();
      jobs := jobs + [job];
      enqueued := enqueued + [job];
      RunQueue();
      assert Pending() == before + [job];
    }

    /** `runQueue`: returns at once when the loop is running; otherwise
        raises the flag and enters the loop. */
    method RunQueue()
      requires Core()
      modifies this
      ensures Valid() && running == (old(running) || old(jobs) != [])
      ensures enqueued == old(enqueued) && finished == old(finished)
      ensures store == old(store) && log == old(log)
      ensures old(running) ==> jobs == old(jobs) && inFlight == old(inFlight)
      ensures !old(running) && old(jobs) != [] ==> inFlight == Some(old(jobs)[0]) && jobs == old(jobs)[1..]
    {
      if running {
        return;
      }
      running := true;
      Advance();
    }

    /** The head of the `while (queue.length)` loop: shift the next job and
        send its request, or lower the flag when the queue is empty. */
    method Advance()
      requires Core() && running && inFlight == None
      modifies this
      ensures Valid()
      ensures enqueued == old(enqueued) && finished == old(finished)
      ensures store == old(store) && log == old(log)
      ensures old(jobs) != [] ==> running && inFlight == Some(old(jobs)[0]) && jobs == old(jobs)[1..]
      ensures old(jobs) == [] ==> !running && inFlight == None && jobs == []
    {
      if jobs != [] {
        inFlight := Some(jobs[0]);
        jobs := jobs[1..];
      } else {
        running := false;
      }
    }

    /** The request of the job in flight settles with `outcome`: on success
        the record is written to the cache and then passed to `onDone`; on
        failure `onDone` gets the zero record and the cache is untouched.
        The loop then waits out the delay. */
    method Complete(outcome: FetchOutcome)
      requires Valid() && inFlight.Some?
      modifies this
      ensures Valid() && running && inFlight == None && jobs == old(jobs)
      ensures enqueued == old(enqueued) && finished == old(finished) + [old(inFlight).value]
      ensures log == old(log) + JobEvents(old(inFlight).value, outcome)
      ensures store == ApplyWrites(old(store), JobEvents(old(inFlight).value, outcome))
      ensures store == if outcome.Loaded? then old(store)[Key(old(inFlight).value.unitId) := OutcomeCosts(outcome)]
                       else old(store)
    {
      var job := inFlight.value;
      var costs := OutcomeCosts(outcome);
      JobEventsFacts(store, job, outcome);
      if outcome.Loaded? {
        store := store[Key(job.unitId) := costs];
      }
      CallbackJobsAppend(log, JobEvents(job, outcome));
      log := log + JobEvents(job, outcome);
      inFlight := None;
      finished := finished + [job];
    }

    /** The delay after a job is over: back to the loop test. */
    method DelayElapsed()
      requires Valid() && running && inFlight == None
      modifies this
      ensures Valid()
      ensures enqueued == old(enqueued) && finished == old(finished)
      ensures store == old(store) && log == old(log)
      ensures old(jobs) != [] ==> running && inFlight == Some(old(jobs)[0]) && jobs == old(jobs)[1..]
      ensures old(jobs) == [] ==> !running && jobs == []
    {
      Advance();
    }

    /** From a point where a request is out (or the loop is idle), runs the
        loop to its end with nothing enqueued meanwhile, the k-th pending job
        ending as `outcomes[k]`: every job is called back in
        order, a failure does not stop the jobs behind it, and afterwards the
        queue is empty and the flag is down. */
    method Drain(outcomes: seq<FetchOutcome>)
      requires Valid() && (running <==> inFlight.Some?) && |outcomes| == |Pending()|
      modifies this
      ensures Valid() && !running && jobs == [] && inFlight == None
      ensures enqueued == old(enqueued) && finished == old(finished) + old(Pending())
      ensures log == old(log) + Trace(old(Pending()), outcomes)
      ensures store == ApplyWrites(old(store), Trace(old(Pending()), outcomes))
    {
      ghost var pending := Pending();
      ghost var log0, store0 := log, store;
      var i := 0;
      while running
        invariant Valid() && 0 <= i <= |outcomes|
        invariant running <==> inFlight.Some?
        invariant Pending() == pending[i..]
        invariant enqueued == old(enqueued)
        invariant log == log0 + Trace(pending[..i], outcomes[..i])
        invariant store == ApplyWrites(store0, Trace(pending[..i], outcomes[..i]))
        decreases |outcomes| - i
      {
        ghost var log1, store1 := log, store;
        RestStep(pending, i);
        DrainTurn(pending[i..], outcomes[i]);
        DrainStep(pending, outcomes, i, log0, store0, log1, store1, log, store);
        i := i + 1;
      }
      assert Pending() == [] && i == |pending|;
      assert pending[..i] == pending && outcomes[..i] == outcomes;
      assert enqueued == finished + [];
    }

    /** One turn of `Drain`: the head of the pending jobs is called back
        and the jobs behind it are left pending. */
    method DrainTurn(ghost rest: seq<Job>, outcome: FetchOutcome)
      requires Valid() && inFlight.Some? && Pending() == rest
      modifies this
      ensures Valid() && (running <==> inFlight.Some?)
      ensures rest != [] && Pending() == rest[1..]
      ensures enqueued == old(enqueued)
      ensures log == old(log) + JobEvents(rest[0], outcome)
      ensures store == ApplyWrites(old(store), JobEvents(rest[0], outcome))
    {
      HeadOfPending(inFlight.value, jobs, rest);
      RunJob(outcome);
    }

    /** One turn of the loop: the request in flight settles with `outcome`,
        the delay passes, and the next job is taken or the loop ends. */
    method RunJob(outcome: FetchOutcome)
      requires Valid() && inFlight.Some?
      modifies this
      ensures Valid() && (running <==> inFlight.Some?)
      ensures Pending() == old(jobs)
      ensures enqueued == old(enqueued) && finished == old(finished) + [old(inFlight).value]
      ensures log == old(log) + JobEvents(old(inFlight).value, outcome)
      ensures store == ApplyWrites(old(store), JobEvents(old(inFlight).value, outcome))
    {
      Complete(outcome);
      DelayElapsed();
    }
  }

  /** Jobs for A and B are enqueued, A's request settles, C is enqueued
      during the delay, and the loop then runs dry: `onDone` fires for A, B,
      C in that order. */
  method EnqueueDuringRun(a: Job, b: Job, c: Job, oa: FetchOutcome, ob: FetchOutcome, oc: FetchOutcome)
    returns (calls: seq<Job>)
    ensures calls == [a, b, c]
  {
    var q := EnqueueDuringDelay(a, b, c, oa);
    q.Drain([ob, oc]);
    TraceCallbackOrder([b, c], [ob, oc]);
    JobEventsFacts(map[], a, oa);
    CallbackJobsAppend(JobEvents(a, oa), Trace([b, c], [ob, oc]));
    calls := CallbackJobs(q.log);
  }

  /** The first part of that run, up to B's request being sent. */
  method EnqueueDuringDelay(a: Job, b: Job, c: Job, oa: FetchOutcome) returns (q: FetchQueue)
    ensures fresh(q) && q.Valid() && q.running && q.inFlight.Some?
    ensures q.Pending() == [b, c] && q.log == JobEvents(a, oa)
  {
    q := new FetchQueue(map[]);
    q.Enqueue(a);
    q.Enqueue(b);
    q.Complete(oa);
    q.Enqueue(c);
    assert q.jobs == [b, c] && q.inFlight == None;
    q.DelayElapsed();
  }
}
