/** The page-job executor: page requests become jobs in a FIFO queue, at most one provider
    call is in flight, every job's own callback receives its own successful response, and
    the aggregate status is emitted only when a job starts or when a job finishes with
    nothing left in the queue. Failed jobs are kept, in failure order, for a later retry. */
module PageProviderExecutor {
  import opened States

  datatype Option<T> = None | Some(value: T)

  /** A call into the data provider: `provideInitialData` or `providePageData(number, ...)`. */
  datatype Request = Initial | Page(number: int)

  /** One page request. `id` stands for the caller's callback: the response of a successful
      provider call for this job is delivered to `id`. */
  datatype Job = Job(id: nat, request: Request)

  /** What a successful provider call hands back: the initial-page record for `Initial`,
      the following-page record for `Page(n)`. Both records are opaque here. */
  datatype Response<I, F> = InitialData(initial: I) | PageData(page: F)

  /** The provider answers a request with the record of the matching kind. */
  predicate Answers<I, F>(r: Request, resp: Response<I, F>)
  {
    r.Initial? <==> resp.InitialData?
  }

  /** The jobs of the failed-job store, in failure order. */
  function JobsOf<C>(failed: seq<(Job, C)>): (jobs: seq<Job>)
    ensures |jobs| == |failed|
    ensures forall k :: 0 <= k < |failed| ==> jobs[k] == failed[k].0
  {
    if failed == [] then [] else JobsOf(failed[..|failed| - 1]) + [failed[|failed| - 1].0]
  }

  /** The callbacks of `jobs`, in order. */
  function IdsOf(jobs: seq<Job>): (ids: seq<nat>)
  {
    seq(|jobs|, k requires 0 <= k < |jobs| => jobs[k].id)
  }

  /** The callbacks invoked, in invocation order. */
  function Receivers<R>(delivered: seq<(nat, R)>): (ids: seq<nat>)
  {
    seq(|delivered|, k requires 0 <= k < |delivered| => delivered[k].0)
  }

  /** Invoking one more callback appends it to the invoked callbacks. */
  lemma ReceiversSnoc<R>(delivered: seq<(nat, R)>, p: (nat, R))
    ensures Receivers(delivered + [p]) == Receivers(delivered) + [p.0]
  {
  }

  /** The callbacks of two job sequences side by side. */
  lemma IdsOfConcat(a: seq<Job>, b: seq<Job>)
    ensures IdsOf(a + b) == IdsOf(a) + IdsOf(b)
  {
  }

  /** Every callback handed out before `n` occurs in `ids`. */
  ghost predicate Covers(ids: seq<nat>, n: nat)
  {
    forall i :: 0 <= i < n ==> i in ids
  }

  /** Removing the entry at `p`, which holds `n - 1`, keeps every callback below `n - 1`. */
  lemma CoversWithout(s: seq<nat>, p: nat, n: nat)
    requires Covers(s, n) && 0 < n && p < |s| && s[p] == n - 1
    ensures Covers(s[..p] + s[p + 1..], n - 1)
  {
    var t := s[..p] + s[p + 1..];
    forall i | 0 <= i < n - 1
      ensures i in t
    {
      assert i in s;
      var q :| 0 <= q < |s| && s[q] == i;
      if q < p {
        assert t[q] == i;
      } else {
        assert t[q - 1] == i;
      }
    }
  }

  /** Putting back the entry at `p` of `s` into `t`, the rest of `s`, which is
      repetition-free and lies below it, gives a repetition-free sequence. */
  lemma InsertAbove(s: seq<nat>, p: nat, t: seq<nat>)
    requires p < |s| && t == s[..p] + s[p + 1..]
    requires forall k :: 0 <= k < |t| ==> t[k] < s[p]
    requires forall k, l :: 0 <= k < l < |t| ==> t[k] != t[l]
    ensures forall k :: 0 <= k < |s| ==> s[k] <= s[p]
    ensures forall k, l :: 0 <= k < l < |s| ==> s[k] != s[l]
  {
    assert forall k :: 0 <= k < p ==> s[k] == t[k];
    assert forall k :: p < k < |s| ==> s[k] == t[k - 1];
  }

  /** Pigeonhole: a sequence holding every callback below `n` has at least `n` entries; with
      exactly `n` entries it holds each of them once and nothing else. */
  lemma {:induction false} Pigeonhole(s: seq<nat>, n: nat)
    requires Covers(s, n)
    ensures |s| >= n
    ensures |s| == n ==> forall k :: 0 <= k < |s| ==> s[k] < n
    ensures |s| == n ==> forall k, l :: 0 <= k < l < |s| ==> s[k] != s[l]
    decreases n
  {
    if n > 0 {
      assert n - 1 in s;
      var p :| 0 <= p < |s| && s[p] == n - 1;
      var t := s[..p] + s[p + 1..];
      CoversWithout(s, p, n);
      Pigeonhole(t, n - 1);
      if |s| == n {
        InsertAbove(s, p, t);
      }
    }
  }

  /** A callback handed out at `n` joins the ones handed out before it. */
  lemma SubmittedCallbacks(ids: seq<nat>, n: nat)
    requires Covers(ids, n)
    ensures Covers(ids + [n], n + 1)
  {
    assert n in ids + [n];
    forall i | 0 <= i < n
      ensures i in ids + [n]
    {
      assert i in ids;
    }
  }

  /** Rearranging callbacks keeps every one of them. */
  lemma PermutedCallbacks(a: seq<nat>, b: seq<nat>, n: nat)
    requires multiset(a) == multiset(b) && Covers(a, n)
    ensures Covers(b, n)
  {
    forall i | 0 <= i < n
      ensures i in b
    {
      assert i in a;
      assert i in multiset(a);
    }
  }

  /** The callback of a job that succeeds moves from the outstanding jobs to the
      invoked callbacks. */
  lemma DeliveredCallbacks(d: seq<nat>, f: seq<Job>, j: Job, q: seq<Job>, n: nat)
    requires Covers(d + IdsOf(f + [j] + q), n)
    ensures Covers(d + [j.id] + IdsOf(f + q), n)
  {
    IdsOfConcat(f + [j], q);
    IdsOfConcat(f, [j]);
    IdsOfConcat(f, q);
    var before, after := d + IdsOf(f + [j] + q), d + [j.id] + IdsOf(f + q);
    assert before == d + IdsOf(f) + [j.id] + IdsOf(q);
    assert after == d + [j.id] + IdsOf(f) + IdsOf(q);
    PermutedCallbacks(before, after, n);
  }

  /** Putting the failed jobs `f` back in the queue behind the job in flight `a` moves
      callbacks around but loses none. */
  lemma RetriedCallbacks(d: seq<nat>, f: seq<Job>, a: seq<Job>, q: seq<Job>, n: nat)
    requires Covers(d + IdsOf(f + a + q), n)
    ensures Covers(d + IdsOf(a + (f + q)), n)
  {
    IdsOfConcat(f + a, q);
    IdsOfConcat(f, a);
    IdsOfConcat(a, f + q);
    IdsOfConcat(f, q);
    var before, after := d + IdsOf(f + a + q), d + IdsOf(a + (f + q));
    assert before == d + IdsOf(f) + IdsOf(a) + IdsOf(q);
    assert after == d + IdsOf(a) + (IdsOf(f) + IdsOf(q));
    PermutedCallbacks(before, after, n);
  }

  /** The executor. The provider and the status observer are bound once, at construction;
      their calls appear as the logs `issued` (provider calls made) and `emitted` (statuses
      sent to the observer). `delivered` logs every success callback invocation. */
  class Executor<I, F, C> {
    var queue: seq<Job>
    var active: Option<Job>
    var failed: seq<(Job, C)>
    var emitted: seq<State<C>>
    var issued: seq<Request>
    var delivered: seq<(nat, Response<I, F>)>
    var nextId: nat
    /** Number of provider calls that have answered. */
    ghost var resolved: nat

    /** The aggregate status as last emitted; `NotStarted` before anything was emitted. */
    function Status(): (s: State<C>)
      reads this`emitted
    {
      if emitted == [] then NotStarted else emitted[|emitted| - 1]
    }

    ghost function InFlight(): (jobs: seq<Job>)
      reads this`active
    {
      if active.Some? then [active.value] else []
    }

    /** Every job not yet delivered: the failed ones, the one in flight, the queued ones. */
    ghost function Outstanding(): (jobs: seq<Job>)
      reads this`failed, this`active, this`queue
    {
      JobsOf(failed) + InFlight() + queue
    }

    /** Every callback handed out so far: those invoked, then those of the outstanding jobs. */
    ghost function Callbacks(): (ids: seq<nat>)
      reads this`delivered, this`failed, this`active, this`queue
    {
      Receivers(delivered) + IdsOf(Outstanding())
    }

    /** What holds between calls and in the middle of a completion. */
    ghost predicate Consistent()
      reads this
    {
      // single flight: every provider call but the last has answered; the last one, if
      // unanswered, is the call of the job in flight
      && |issued| == resolved + |InFlight()|
      && (active.Some? ==> issued[|issued| - 1] == active.value.request)
      // the observer hears nothing before the first job starts, and then never `NotStarted`
      && (emitted == [] <==> issued == [])
      && (emitted != [] ==> !Status().NotStarted?)
      && (forall k :: 0 <= k < |emitted| ==> !emitted[k].NotStarted?)
      // every callback handed out is accounted for: it has been invoked, or its job is
      // outstanding; with one entry per callback, none is accounted for twice
      && |delivered| + |failed| + |InFlight()| + |queue| == nextId
      && (forall i :: 0 <= i < nextId ==> i in Callbacks())
    }

    /** The invariant between calls: an idle executor has nothing queued, and the status
        reads `Loading` exactly while a provider call is in flight. */
    ghost predicate Valid()
      reads this
    {
      && Consistent()
      && (active.None? ==> queue == [])
      && (Status().Loading? <==> active.Some?)
    }

    /** Every callback handed out so far is accounted for exactly once: as invoked, or as the
        callback of one outstanding job. */
    lemma CallbacksDistinct()
      requires Consistent()
      ensures |Callbacks()| == nextId
      ensures forall k :: 0 <= k < |Callbacks()| ==> Callbacks()[k] < nextId
      ensures forall k, l :: 0 <= k < l < |Callbacks()| ==> Callbacks()[k] != Callbacks()[l]
    {
      Pigeonhole(Callbacks(), nextId);
    }

    /** Each callback receives at most one response, and none before its job has answered:
        the callbacks of the job in flight and of the queued jobs have not been invoked. */
    lemma InvokedAtMostOnce()
      requires Valid()
      ensures forall k, l :: 0 <= k < l < |delivered| ==> delivered[k].0 != delivered[l].0
      ensures active.Some? ==> forall k :: 0 <= k < |delivered| ==> delivered[k].0 != active.value.id
      ensures forall k, m :: 0 <= k < |delivered| && 0 <= m < |queue| ==> delivered[k].0 != queue[m].id
    {
      CallbacksDistinct();
      var cs, d, f := Callbacks(), |delivered|, |failed|;
      assert forall k :: 0 <= k < d ==> cs[k] == delivered[k].0;
      var a := |InFlight()|;
      assert forall m :: 0 <= m < |queue| ==> cs[d + f + a + m] == queue[m].id;
      if active.Some? {
        assert cs[d + f] == active.value.id;
      }
    }

    /** The effect of submitting `r` as the job with callback `id`: it starts at once on an
        idle executor, and waits at the back of the queue otherwise. */
    twostate predicate Submitted(id: nat, r: Request)
      reads this
    {
      && id == old(nextId) && nextId == id + 1
      && failed == old(failed) && delivered == old(delivered)
      && (old(active).Some? ==>
            active == old(active) && queue == old(queue) + [Job(id, r)]
            && issued == old(issued) && emitted == old(emitted))
      && (old(active).None? ==>
            active == Some(Job(id, r)) && queue == []
            && issued == old(issued) + [r] && emitted == old(emitted) + [Loading])
    }

    /** The effect of the job in flight resolving: with nothing queued the burst ends and
        `terminal` is emitted; otherwise nothing is emitted for it and the head of the queue
        starts. */
    twostate predicate Advanced(terminal: State<C>)
      reads this
    {
      && nextId == old(nextId)
      && (old(queue) == [] ==>
            active == None && queue == []
            && issued == old(issued) && emitted == old(emitted) + [terminal])
      && (old(queue) != [] ==>
            active == Some(old(queue)[0]) && queue == old(queue)[1..]
            && issued == old(issued) + [old(queue)[0].request] && emitted == old(emitted) + [Loading])
    }

    /** A fresh executor with its observer and its provider attached. */
    constructor ()
      ensures Valid()
      ensures queue == [] && active == None && failed == [] && nextId == 0
      ensures emitted == [] && issued == [] && delivered == []
      ensures Status() == NotStarted
    {
      queue, active, failed := [], None, [];
      emitted, issued, delivered := [], [], [];
      nextId, resolved := 0, 0;
    }

    /** Starts the head of the queue when no job is in flight; does nothing otherwise. */
    method Pump()
      requires Consistent()
      requires active.Some? ==> Status().Loading?
      requires active.None? && queue == [] ==> !Status().Loading?
      modifies this
      ensures Valid()
      ensures old(active).Some? || old(queue) == [] ==> unchanged(this)
      ensures old(active).None? && old(queue) != [] ==>
                active == Some(old(queue)[0]) && queue == old(queue)[1..]
                && issued == old(issued) + [old(queue)[0].request] && emitted == old(emitted) + [Loading]
                && failed == old(failed) && delivered == old(delivered)
                && nextId == old(nextId) && resolved == old(resolved)
    {
      if active.None? && queue != [] {
        var job := queue[0];
        assert Outstanding() == JobsOf(failed) + [job] + queue[1..];
        queue := queue[1..];
        active := Some(job);
        emitted := emitted + [Loading];
        issued := issued + [job.request];
        assert Callbacks() == old(Callbacks());
      }
    }

    method Submit(r: Request) returns (id: nat)
      requires Valid()
      modifies this
      ensures Valid() && Submitted(id, r) && resolved == old(resolved)
    {
      id := nextId;
      var job := Job(id, r);
      SubmittedCallbacks(Callbacks(), nextId);
      IdsOfConcat(Outstanding(), [job]);
      assert Outstanding() + [job] == JobsOf(failed) + InFlight() + (queue + [job]);
      nextId := nextId + 1;
      queue := queue + [job];
      assert Callbacks() == old(Callbacks()) + [id];
      Pump();
    }

    /** `loadInitialPage(callback)`: the returned id stands for `callback`. */
    method LoadInitialPage() returns (id: nat)
      requires Valid()
      modifies this
      ensures Valid() && Submitted(id, Initial) && resolved == old(resolved)
    {
      id := Submit(Initial);
    }

    /** `loadPage(n, callback)`: the returned id stands for `callback`; `n` is passed through. */
    method LoadPage(n: int) returns (id: nat)
      requires Valid()
      modifies this
      ensures Valid() && Submitted(id, Page(n)) && resolved == old(resolved)
    {
      id := Submit(Page(n));
    }

    /** Settles a burst step once the job in flight has answered: with nothing queued,
        `terminal` is emitted; otherwise the head of the queue starts and nothing is emitted
        for the job that answered. */
    method Advance(terminal: State<C>)
      requires Consistent() && active.None? && Status().Loading?
      requires !terminal.NotStarted? && !terminal.Loading?
      modifies this
      ensures Valid() && Advanced(terminal)
      ensures failed == old(failed) && delivered == old(delivered) && resolved == old(resolved)
    {
      if queue == [] {
        emitted := emitted + [terminal];
      } else {
        Pump();
      }
    }

    /** The provider's success callback for the job in flight, with the record it produced. */
    method ProviderSucceeds(resp: Response<I, F>)
      requires Valid() && active.Some? && Answers(active.value.request, resp)
      modifies this
      ensures Valid() && Advanced(Loaded)
      ensures delivered == old(delivered) + [(old(active).value.id, resp)]
      ensures failed == old(failed) && resolved == old(resolved) + 1
    {
      var job := active.value;
      assert Callbacks() == Receivers(delivered) + IdsOf(JobsOf(failed) + [job] + queue);
      DeliveredCallbacks(Receivers(delivered), JobsOf(failed), job, queue, nextId);
      active := None;
      resolved := resolved + 1;
      ReceiversSnoc(delivered, (job.id, resp));
      delivered := delivered + [(job.id, resp)];
      assert Outstanding() == JobsOf(failed) + queue;
      Advance(Loaded);
    }

    /** The provider's failure callback for the job in flight. The job joins the failed-job
        store behind the earlier failures. */
    method ProviderFails(cause: C)
      requires Valid() && active.Some?
      modifies this
      ensures Valid() && Advanced(Failed(cause))
      ensures failed == old(failed) + [(old(active).value, cause)]
      ensures delivered == old(delivered) && resolved == old(resolved) + 1
    {
      var job := active.value;
      assert JobsOf(failed + [(job, cause)]) == JobsOf(failed) + [job];
      active := None;
      resolved := resolved + 1;
      failed := failed + [(job, cause)];
      assert Callbacks() == old(Callbacks());
      Advance(Failed(cause));
    }

    /** `retryFailedJobs()`: every failed job is submitted again, earliest failure first,
        and the store is emptied. */
    method RetryFailedJobs()
      requires Valid()
      modifies this
      ensures Valid()
      ensures failed == [] && delivered == old(delivered) && nextId == old(nextId) && resolved == old(resolved)
      ensures old(failed) == [] ==> unchanged(this)
      ensures old(active).None? && old(failed) != [] ==>
                active == Some(old(failed)[0].0) && queue == JobsOf(old(failed))[1..]
                && issued == old(issued) + [old(failed)[0].0.request] && emitted == old(emitted) + [Loading]
      ensures old(active).Some? ==>
                active == old(active) && issued == old(issued) && emitted == old(emitted)
                && (queue == JobsOf(old(failed)) + old(queue) || queue == old(queue) + JobsOf(old(failed)))
    {
      if failed != [] {
        var jobs := JobsOf(failed);
        assert Callbacks() == Receivers(delivered) + IdsOf(jobs + InFlight() + queue);
        RetriedCallbacks(Receivers(delivered), jobs, InFlight(), queue, nextId);
        queue := jobs + queue;
        failed := [];
        assert Callbacks() == Receivers(delivered) + IdsOf(InFlight() + (jobs + old(queue)));
        Pump();
      }
    }
  }
}
