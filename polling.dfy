/** What GoPro.wait does, as a function of the camera's answers: poll the
    listing URL until a request does not raise, or a failed request finds
    the timeout exceeded. Attempt k is sent k poll intervals after the start
    (requests take no time on the model's clock), and the elapsed-time check
    after it reads k * poll. */
module Polling {
  import opened Api

  /** The outcome of the wait that starts with attempt k (the session's
      request number first + k), with the number of the request after the
      last one it sends: Ok(true) when a request succeeds, Ok(false) on
      timeout, Err when the transport fails (HTTPError is the only
      exception wait catches). */
  function PollFrom(answer: (string, nat) -> Exchange, url: string, first: nat,
                    poll: nat, timeout: int, k: nat): (r: (Result<bool>, nat))
    requires poll > 0
    ensures r.1 > k
    decreases if k * poll <= timeout then timeout - k * poll + 1 else 0
  {
    match answer(url, first + k)
    case TransportError => (Err(NetworkError), k + 1)
    case Reply(resp) =>
      if !RaisesForStatus(resp.status) then (Ok(true), k + 1)
      else if k * poll > timeout then (Ok(false), k + 1)
      else PollFrom(answer, url, first, poll, timeout, k + 1)
  }

  /** Attempt j fails with an HTTP error and the check after it finds the
      timeout not yet exceeded: the loop sleeps and tries again. */
  ghost predicate Retries(answer: (string, nat) -> Exchange, url: string, first: nat,
                          poll: nat, timeout: int, j: nat)
  {
    var x := answer(url, first + j);
    x.Reply? && RaisesForStatus(x.response.status) && j * poll <= timeout
  }

  /** What the wait returns when its last attempt got `x`. */
  function Verdict(x: Exchange): Result<bool>
  {
    match x
    case TransportError => Err(NetworkError)
    case Reply(resp) => Ok(!RaisesForStatus(resp.status))
  }

  /** The wait stops at the first attempt that does not retry, and returns
      that attempt's verdict. */
  lemma {:induction false} PollStopsAtFirstNonRetry(answer: (string, nat) -> Exchange, url: string,
                                                   first: nat, poll: nat, timeout: int, k: nat)
    requires poll > 0
    ensures var w := PollFrom(answer, url, first, poll, timeout, k);
      && !Retries(answer, url, first, poll, timeout, w.1 - 1)
      && (forall j :: k <= j < w.1 - 1 ==> Retries(answer, url, first, poll, timeout, j))
      && w.0 == Verdict(answer(url, first + w.1 - 1))
    decreases if k * poll <= timeout then timeout - k * poll + 1 else 0
  {
    if Retries(answer, url, first, poll, timeout, k) {
      PollStopsAtFirstNonRetry(answer, url, first, poll, timeout, k + 1);
    }
  }

  /** Conversely, when attempts k .. n - 1 retry and attempt n does not, the
      wait sends exactly attempts k .. n and returns attempt n's verdict. */
  lemma {:induction false} PollDecidedAt(answer: (string, nat) -> Exchange, url: string,
                                        first: nat, poll: nat, timeout: int, k: nat, n: nat)
    requires poll > 0 && k <= n
    requires forall j :: k <= j < n ==> Retries(answer, url, first, poll, timeout, j)
    requires !Retries(answer, url, first, poll, timeout, n)
    ensures PollFrom(answer, url, first, poll, timeout, k) == (Verdict(answer(url, first + n)), n + 1)
    decreases n - k
  {
    if k < n {
      assert Retries(answer, url, first, poll, timeout, k);
      PollDecidedAt(answer, url, first, poll, timeout, k + 1, n);
    }
  }

  /** How a whole wait ends, with m requests sent: it returns True only
      right after the first request that did not raise; False only when a
      request failed with an HTTP error and the elapsed time then exceeded
      the timeout; an exception only when the transport failed. */
  lemma WaitOutcome(answer: (string, nat) -> Exchange, url: string, first: nat,
                    poll: nat, timeout: int)
    requires poll > 0
    ensures PollFrom(answer, url, first, poll, timeout, 0).1 >= 1
    ensures var w := PollFrom(answer, url, first, poll, timeout, 0);
      var last := answer(url, first + w.1 - 1);
      w.0 == Ok(true) <==> last.Reply? && !RaisesForStatus(last.response.status)
    ensures var w := PollFrom(answer, url, first, poll, timeout, 0);
      var last := answer(url, first + w.1 - 1);
      w.0 == Ok(false) <==> last.Reply? && RaisesForStatus(last.response.status) && (w.1 - 1) * poll > timeout
    ensures var w := PollFrom(answer, url, first, poll, timeout, 0);
      (w.0.Err? <==> answer(url, first + w.1 - 1).TransportError?) && (w.0.Err? ==> w.0.error == NetworkError)
  {
    PollStopsAtFirstNonRetry(answer, url, first, poll, timeout, 0);
    var w := PollFrom(answer, url, first, poll, timeout, 0);
    var last := answer(url, first + w.1 - 1);
    assert !Retries(answer, url, first, poll, timeout, w.1 - 1);
    assert w.0 == Verdict(last);
  }

  /** Every request of a wait before its last one failed with an HTTP error
      within the timeout. */
  lemma EarlierAttemptsRetried(answer: (string, nat) -> Exchange, url: string, first: nat,
                               poll: nat, timeout: int, j: nat)
    requires poll > 0
    requires j < PollFrom(answer, url, first, poll, timeout, 0).1 - 1
    ensures answer(url, first + j).Reply?
    ensures RaisesForStatus(answer(url, first + j).response.status)
    ensures j * poll <= timeout
  {
    PollStopsAtFirstNonRetry(answer, url, first, poll, timeout, 0);
    assert Retries(answer, url, first, poll, timeout, j);
  }

  function Status(code: int): Exchange
  {
    Reply(Response(code, [], NotJson))
  }

  /** A camera that fails its first two requests and answers from then on. */
  function BusyTwice(url: string, n: nat): Exchange
  {
    if n < 2 then Status(500) else Status(200)
  }

  /** A camera that never answers successfully. */
  function AlwaysBusy(url: string, n: nat): Exchange
  {
    Status(503)
  }

  /** Two failures, then success, polling every 2 ticks with a 50-tick
      timeout: three requests, the wait returns True. */
  lemma ReadyOnThirdAttempt()
    ensures PollFrom(BusyTwice, "list", 0, 2, 50, 0) == (Ok(true), 3)
  {
    assert Retries(BusyTwice, "list", 0, 2, 50, 0) && Retries(BusyTwice, "list", 0, 2, 50, 1);
    PollDecidedAt(BusyTwice, "list", 0, 2, 50, 0, 2);
  }

  /** Every request fails, polling every 2 ticks with a 5-tick timeout: the
      check follows each request, so the attempts at 0, 2 and 4 ticks retry
      and the one at 6 ticks ends the wait with False: four requests. */
  lemma TimesOutOnFourthAttempt()
    ensures PollFrom(AlwaysBusy, "list", 0, 2, 5, 0) == (Ok(false), 4)
  {
    assert Retries(AlwaysBusy, "list", 0, 2, 5, 0) && Retries(AlwaysBusy, "list", 0, 2, 5, 1);
    assert Retries(AlwaysBusy, "list", 0, 2, 5, 2);
    PollDecidedAt(AlwaysBusy, "list", 0, 2, 5, 0, 3);
  }
}
