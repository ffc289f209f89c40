/** The executor's test suite as client methods: each one drives a fresh executor the way
    its test does and returns what the test inspects (statuses sent to the observer,
    provider calls made, success callbacks invoked). Its postconditions are the test's
    verifications. A provider that answers inside `loadInitialPage` is a completion called
    right after `LoadInitialPage`, with the queue as it is at that moment. */
module PageProviderExecutorTests {
  import opened States
  import opened PageProviderExecutor

  datatype InitialPagedResponse = InitialPagedResponse(totalCount: int, items: seq<string>)
  datatype FollowingPagedResponse = FollowingPagedResponse(totalCount: int, pageNumber: int, items: seq<string>)
  /** A thrown exception; `serial` tells separately created exceptions apart. */
  datatype Throwable = Exception(serial: nat)

  type TestResponse = Response<InitialPagedResponse, FollowingPagedResponse>

  /** `when job is started progress status is emitted` */
  method ProgressStatusEmittedWhenJobStarts() returns (emitted: seq<State<Throwable>>)
    ensures emitted == [Loading]
  {
    var executor := new Executor<InitialPagedResponse, FollowingPagedResponse, Throwable>();
    var callback := executor.LoadInitialPage();
    emitted := executor.emitted;
  }

  /** `when job is successfully finished success status is emitted`: the provider answers
      with success inside `loadInitialPage`. */
  method SuccessStatusEmittedWhenJobSucceeds() returns (emitted: seq<State<Throwable>>)
    ensures emitted == [Loading, Loaded]
  {
    var executor := new Executor<InitialPagedResponse, FollowingPagedResponse, Throwable>();
    var result := InitialPagedResponse(10, [""]);
    var callback := executor.LoadInitialPage();
    executor.ProviderSucceeds(InitialData(result));
    emitted := executor.emitted;
  }

  /** `when job is failed and no jobs in progress failure status is emitted`: the provider
      answers with a failure inside `loadInitialPage`. */
  method FailureStatusEmittedWhenLoneJobFails() returns (emitted: seq<State<Throwable>>, exception: Throwable)
    ensures emitted == [Loading, Failed(exception)]
  {
    var executor := new Executor<InitialPagedResponse, FollowingPagedResponse, Throwable>();
    exception := Exception(0);
    var callback := executor.LoadInitialPage();
    executor.ProviderFails(exception);
    emitted := executor.emitted;
  }

  /** `when job is failed but there are jobs in progress failure status is not emitted` */
  method NoFailureStatusWhileJobsQueued() returns (emitted: seq<State<Throwable>>)
    ensures forall k :: 0 <= k < |emitted| ==> !emitted[k].Failed?
    ensures emitted == [Loading, Loading]
  {
    var executor := new Executor<InitialPagedResponse, FollowingPagedResponse, Throwable>();
    var callback := executor.LoadInitialPage();
    var callback2 := executor.LoadPage(2);
    executor.ProviderFails(Exception(0));
    emitted := executor.emitted;
  }

  /** `when job is succeed but there are jobs in progress success status is not emitted` */
  method NoSuccessStatusWhileJobsQueued() returns (emitted: seq<State<Throwable>>)
    ensures forall k :: 0 <= k < |emitted| ==> !emitted[k].Loaded?
    ensures emitted == [Loading, Loading]
  {
    var executor := new Executor<InitialPagedResponse, FollowingPagedResponse, Throwable>();
    var result := InitialPagedResponse(10, [""]);
    var callback := executor.LoadInitialPage();
    var callback2 := executor.LoadPage(2);
    executor.ProviderSucceeds(InitialData(result));
    emitted := executor.emitted;
  }

  /** `when there is only one job execute it and provide result`: the callback is invoked
      once, with exactly the record the provider produced. */
  method LoneJobDeliversResult() returns (callback: nat, delivered: seq<(nat, TestResponse)>)
    ensures delivered == [(callback, InitialData(InitialPagedResponse(10, [""])))]
  {
    var executor := new Executor<InitialPagedResponse, FollowingPagedResponse, Throwable>();
    var result := InitialPagedResponse(10, [""]);
    callback := executor.LoadInitialPage();
    executor.ProviderSucceeds(InitialData(result));
    delivered := executor.delivered;
  }

  /** `when there is more than one job do not start it yet`: the initial request is made once,
      and page 2 is not requested while it is unanswered. */
  method SecondJobWaits() returns (issued: seq<Request>)
    ensures issued == [Initial]
    ensures Page(2) !in issued
  {
    var executor := new Executor<InitialPagedResponse, FollowingPagedResponse, Throwable>();
    var callback := executor.LoadInitialPage();
    var callback2 := executor.LoadPage(2);
    issued := executor.issued;
  }

  /** `second job is executed after first is succeed` */
  method SecondJobRunsAfterFirstSucceeds()
    returns (issuedBefore: seq<Request>, issuedAfter: seq<Request>, callback2: nat, delivered: seq<(nat, TestResponse)>)
    ensures issuedBefore == [Initial]
    ensures issuedAfter == [Initial, Page(2)]
    ensures |delivered| == 2 && delivered[1] == (callback2, PageData(FollowingPagedResponse(10, 2, [""])))
    ensures delivered[0].0 != callback2
  {
    var executor := new Executor<InitialPagedResponse, FollowingPagedResponse, Throwable>();
    var result := InitialPagedResponse(10, [""]);
    var result2 := FollowingPagedResponse(10, 2, [""]);
    var callback := executor.LoadInitialPage();
    callback2 := executor.LoadPage(2);
    issuedBefore := executor.issued;
    executor.ProviderSucceeds(InitialData(result));
    issuedAfter := executor.issued;
    executor.ProviderSucceeds(PageData(result2));
    delivered := executor.delivered;
  }

  /** `second job is executed after first is failed`: page 2 is requested once the initial
      request fails, and its callback alone receives its record, once. The observer never
      hears of the earlier failure: the burst ends with page 2's success. */
  method SecondJobRunsAfterFirstFails()
    returns (issuedBefore: seq<Request>, issuedAfter: seq<Request>, callback2: nat,
             delivered: seq<(nat, TestResponse)>, emitted: seq<State<Throwable>>)
    ensures issuedBefore == [Initial]
    ensures issuedAfter == [Initial, Page(2)]
    ensures |delivered| > 0 && delivered[|delivered| - 1] == (callback2, PageData(FollowingPagedResponse(10, 2, [""])))
    ensures forall k :: 0 <= k < |delivered| - 1 ==> delivered[k].0 != callback2
    ensures emitted == [Loading, Loading, Loaded]
  {
    var executor := new Executor<InitialPagedResponse, FollowingPagedResponse, Throwable>();
    var result2 := FollowingPagedResponse(10, 2, [""]);
    var callback := executor.LoadInitialPage();
    callback2 := executor.LoadPage(2);
    issuedBefore := executor.issued;
    executor.ProviderFails(Exception(0));
    issuedAfter := executor.issued;
    executor.ProviderSucceeds(PageData(result2));
    executor.InvokedAtMostOnce();
    delivered, emitted := executor.delivered, executor.emitted;
  }

  /** `first failed job is resumed after retry called`: after both jobs failed, the retry
      makes one provider call, the initial request. */
  method FirstFailedJobResumedOnRetry() returns (reissued: seq<Request>)
    ensures reissued == [Initial]
  {
    var executor := new Executor<InitialPagedResponse, FollowingPagedResponse, Throwable>();
    var callback := executor.LoadInitialPage();
    var callback2 := executor.LoadPage(2);
    executor.ProviderFails(Exception(0));
    executor.ProviderFails(Exception(1));
    var cleared := |executor.issued|;
    executor.RetryFailedJobs();
    reissued := executor.issued[cleared..];
  }

  /** Reference value for the scenarios below: the provider calls a burst is expected to make,
      the initial page and then `pages` in submission order. Its ensures only spell the
      value out pointwise. */
  function BurstRequests(pages: seq<int>): (r: seq<Request>)
    ensures |r| == |pages| + 1 && r[0] == Initial
    ensures forall k :: 0 <= k < |pages| ==> r[k + 1] == Page(pages[k])
  {
    [Initial] + seq(|pages|, k requires 0 <= k < |pages| => Page(pages[k]))
  }

  /** Reference value: the jobs expected behind a burst's initial page, callback `k + 1`
      asking for `pages[k]`. Its ensures only spell the value out pointwise. */
  function BurstJobs(pages: seq<int>): (jobs: seq<Job>)
    ensures |jobs| == |pages|
    ensures forall k :: 0 <= k < |pages| ==> jobs[k] == Job(k + 1, Page(pages[k]))
  {
    seq(|pages|, k requires 0 <= k < |pages| => Job(k + 1, Page(pages[k])))
  }

  /** Submits `pages` back to back while the initial page, callback 0, is in flight: every
      job waits in submission order and no provider call is made. */
  method QueueBurst<I, F, C>(executor: Executor<I, F, C>, pages: seq<int>) returns (callbacks: seq<nat>)
    requires executor.Valid() && executor.nextId == 1
    requires executor.active == Some(Job(0, Initial)) && executor.queue == []
    modifies executor
    ensures executor.Valid() && executor.nextId == |pages| + 1
    ensures executor.active == old(executor.active) && executor.queue == BurstJobs(pages)
    ensures executor.issued == old(executor.issued) && executor.emitted == old(executor.emitted)
    ensures executor.delivered == old(executor.delivered)
    ensures callbacks == seq(|pages|, k => k + 1)
  {
    var jobs := BurstJobs(pages);
    callbacks := [];
    var i := 0;
    while i < |pages|
      invariant 0 <= i <= |pages|
      invariant executor.Valid() && executor.nextId == i + 1
      invariant executor.active == old(executor.active) && executor.queue == jobs[..i]
      invariant executor.issued == old(executor.issued) && executor.emitted == old(executor.emitted)
      invariant executor.delivered == old(executor.delivered)
      invariant callbacks == seq(i, k => k + 1)
    {
      var id := executor.LoadPage(pages[i]);
      assert jobs[..i + 1] == jobs[..i] + [jobs[i]];
      callbacks := callbacks + [id];
      i := i + 1;
    }
    assert jobs[..i] == jobs;
  }

  /** Reference value: `n` emissions of `Loading`. Its ensures only spell the value out. */
  function Loadings<C>(n: nat): (r: seq<State<C>>)
    ensures |r| == n && forall k :: 0 <= k < n ==> r[k] == Loading
  {
    seq(n, _ => Loading)
  }

  /** Reference value: the deliveries expected for a burst's first `i` page calls, each
      record at its own callback. Its ensures only spell the value out. */
  function PageDeliveries<I, F>(replies: seq<F>, i: nat): (r: seq<(nat, Response<I, F>)>)
    requires i <= |replies|
    ensures |r| == i && forall k :: 0 <= k < i ==> r[k] == (k + 1, PageData(replies[k]))
  {
    seq(i, k requires 0 <= k < i => (k + 1, PageData(replies[k])))
  }

  /** One more page call of a burst made, and one more `Loading` heard. */
  lemma BurstStep<C>(pages: seq<int>, i: nat)
    requires i + 1 < |pages|
    ensures BurstRequests(pages)[..i + 3] == BurstRequests(pages)[..i + 2] + [Page(pages[i + 1])]
    ensures Loadings<C>(i + 3) == Loadings<C>(i + 2) + [Loading]
  {
  }

  /** One more page record of a burst delivered. */
  lemma DeliveriesStep<I, F>(replies: seq<F>, i: nat)
    requires i < |replies|
    ensures PageDeliveries<I, F>(replies, i + 1) == PageDeliveries<I, F>(replies, i) + [(i + 1, PageData(replies[i]))]
  {
  }

  /** Answers the burst's page calls with `replies`, one at a time, once its initial page has
      been answered: each job starts when the one before it answers, and `Loaded` is emitted
      once, after the last one. */
  method AnswerBurst<I, F, C>(executor: Executor<I, F, C>, pages: seq<int>, first: I, replies: seq<F>)
    requires 0 < |pages| && |replies| == |pages| && executor.Valid()
    requires executor.active == Some(BurstJobs(pages)[0]) && executor.queue == BurstJobs(pages)[1..]
    requires executor.issued == BurstRequests(pages)[..2]
    requires executor.emitted == [Loading, Loading]
    requires executor.delivered == [(0, InitialData(first))]
    modifies executor
    ensures executor.issued == BurstRequests(pages)
    ensures executor.emitted == Loadings(|pages| + 1) + [Loaded]
    ensures executor.delivered == [(0, InitialData(first))] + PageDeliveries(replies, |pages|)
  {
    var jobs := BurstJobs(pages);
    var i := 0;
    assert executor.emitted == Loadings(2);
    assert executor.delivered == [(0, InitialData(first))] + PageDeliveries(replies, 0);
    while i + 1 < |pages|
      invariant 0 <= i < |pages|
      invariant executor.Valid()
      invariant executor.active == Some(jobs[i]) && executor.queue == jobs[i + 1..]
      invariant executor.issued == BurstRequests(pages)[..i + 2]
      invariant executor.emitted == Loadings(i + 2)
      invariant executor.delivered == [(0, InitialData(first))] + PageDeliveries(replies, i)
    {
      BurstStep<C>(pages, i);
      DeliveriesStep<I, F>(replies, i);
      executor.ProviderSucceeds(PageData(replies[i]));
      i := i + 1;
    }
    DeliveriesStep<I, F>(replies, i);
    executor.ProviderSucceeds(PageData(replies[i]));
    assert BurstRequests(pages)[..i + 2] == BurstRequests(pages);
  }

  /** The initial page and then `pages` submitted back to back, and every provider call
      answered with success in turn. The calls are made in submission order, every callback
      receives its own record, and the observer hears `Loading` for every job and a single
      `Loaded`, at the end of the burst. That exactly one call is in flight throughout is not
      a postcondition here: it is the single-flight clause of `Valid()`, which every call
      inside `QueueBurst` and `AnswerBurst` keeps. */
  method SuccessfulBurst<I, F, C>(pages: seq<int>, first: I, replies: seq<F>)
    returns (callbacks: seq<nat>, issued: seq<Request>, emitted: seq<State<C>>, delivered: seq<(nat, Response<I, F>)>)
    requires |replies| == |pages|
    ensures issued == BurstRequests(pages)
    ensures |emitted| == |pages| + 2 && emitted[|pages| + 1] == Loaded
    ensures forall k :: 0 <= k <= |pages| ==> emitted[k] == Loading
    ensures |callbacks| == |pages| + 1 && |delivered| == |pages| + 1
    ensures forall k, l :: 0 <= k < l < |callbacks| ==> callbacks[k] != callbacks[l]
    ensures delivered[0] == (callbacks[0], InitialData(first))
    ensures forall k :: 0 <= k < |pages| ==> delivered[k + 1] == (callbacks[k + 1], PageData(replies[k]))
  {
    var executor := new Executor<I, F, C>();
    var id := executor.LoadInitialPage();
    var rest := QueueBurst(executor, pages);
    callbacks := [id] + rest;
    executor.ProviderSucceeds(InitialData(first));
    if 0 < |pages| {
      AnswerBurst(executor, pages, first, replies);
    }
    issued, emitted, delivered := executor.issued, executor.emitted, executor.delivered;
  }
}
