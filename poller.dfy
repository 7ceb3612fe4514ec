/**
 * The client side of the OAuth 2.0 device authorization grant (RFC 8628,
 * section 3.4 and 3.5): after the device code has been issued, poll the
 * token endpoint until the user approves, refuses, or the code expires.
 *
 * The network and the clock are oracles: the poller reads one `Poll` per
 * request, holding the reply and the clock reading taken after it. Clock
 * readings and the deadline are in microseconds.
 */
module Auth {
  import opened Strings

  const PendingError := "authorization_pending"
  const TokenFileSuffix := ".tokeninfo.json"

  /**
   * The outcome of one token POST: a reply (status code, `error` if present,
   * the JSON body) with the clock reading after it, or a request that
   * raised (a connection error or a timeout), which nothing in the loop
   * catches.
   */
  datatype Poll = Poll(status: int, error: Option<string>, body: string, now: int) | PollRaised

  /**
   * How polling ended: approved (the body is the token), refused with some
   * other error, the code expired, the thread died on an uncaught exception
   * (the POST raised, or a non-200 reply had no `error` key), or still
   * polling when the replies ran out.
   */
  datatype Verdict = Authorized(token: string) | Denied | Expired | Crashed | StillPolling

  /** What became of an approved token: saved to its file, or logged after the write failed. */
  datatype Saved = TokenFile(name: string, contents: string) | TokenLogged(contents: string) | NothingSaved

  /** The deadline: the start reading plus `expires_in` seconds. */
  function Deadline(start: int, expiresIn: int): int
  {
    start + expiresIn * 1000000
  }

  /** The loop sleeps and polls again: a pending reply before the deadline. */
  predicate KeepsPolling(p: Poll, stop: int)
  {
    p.Poll? && p.status != 200 && p.error == Some(PendingError) && p.now < stop
  }

  /** The index of the reply that ends polling, from `i` on; `|polls|` when none does. */
  function Settled(polls: seq<Poll>, stop: int, i: nat): (k: nat)
    requires i <= |polls|
    ensures i <= k <= |polls|
    ensures forall j :: i <= j < k ==> KeepsPolling(polls[j], stop)
    ensures k < |polls| ==> !KeepsPolling(polls[k], stop)
    decreases |polls| - i
  {
    if i == |polls| || !KeepsPolling(polls[i], stop) then i else Settled(polls, stop, i + 1)
  }

  /** The verdict a reply that ends polling gives, checked in the loop's order. */
  function VerdictOf(p: Poll): (v: Verdict)
    ensures v.Authorized? <==> p.Poll? && p.status == 200
    ensures v == Denied <==> p.Poll? && p.status != 200 && p.error.Some? && p.error.value != PendingError
    ensures v == Expired <==> p.Poll? && p.status != 200 && p.error == Some(PendingError)
    ensures v == Crashed <==> p.PollRaised? || (p.status != 200 && p.error.None?)
    ensures v != StillPolling
  {
    if p.PollRaised? then Crashed
    else if p.status == 200 then Authorized(p.body)
    else if p.error.None? then Crashed
    else if p.error.value != PendingError then Denied
    else Expired
  }

  function Outcome(polls: seq<Poll>, stop: int): Verdict
  {
    var k := Settled(polls, stop, 0);
    if k == |polls| then StillPolling else VerdictOf(polls[k])
  }

  /** Number of requests sent: one per reply up to and including the one that ends polling. */
  function Requests(polls: seq<Poll>, stop: int): nat
  {
    var k := Settled(polls, stop, 0);
    if k == |polls| then |polls| else k + 1
  }

  /** The polling thread's fixed inputs. */
  class AuthPoll {
    const targetEmail: string
    const url: string
    const data: seq<(string, string)>
    /** `int(devicecode_response["expires_in"])`, in seconds. */
    const expiresIn: int
    /** `int(devicecode_response["interval"])`, in seconds. */
    const interval: int

    constructor (targetEmail: string, url: string, data: seq<(string, string)>, expiresIn: int, interval: int)
      ensures this.targetEmail == targetEmail && this.url == url && this.data == data
      ensures this.expiresIn == expiresIn && this.interval == interval
    {
      this.targetEmail := targetEmail;
      this.url := url;
      this.data := data;
      this.expiresIn := expiresIn;
      this.interval := interval;
    }

    /**
     * `AuthPoll.run`: POST the same request until a reply ends polling,
     * sleeping `interval` seconds after each pending reply that came before
     * the deadline. A POST that raises ends the thread with nothing saved. An approval is saved to `<email>.tokeninfo.json`, or
     * logged when that write fails (`writeFails`).
     */
    method Run(start: int, polls: seq<Poll>, writeFails: bool)
        returns (verdict: Verdict, requests: seq<(string, seq<(string, string)>)>, sleeps: seq<int>, saved: Saved)
      ensures verdict == Outcome(polls, Deadline(start, expiresIn))
      ensures |requests| == Requests(polls, Deadline(start, expiresIn))
      ensures |polls| > 0 ==> |requests| >= 1
      ensures forall i :: 0 <= i < |requests| ==> requests[i] == (url, data)
      ensures |sleeps| == Settled(polls, Deadline(start, expiresIn), 0)
      ensures forall i :: 0 <= i < |sleeps| ==> sleeps[i] == interval
      ensures saved == if !verdict.Authorized? then NothingSaved
                       else if writeFails then TokenLogged(verdict.token)
                       else TokenFile(targetEmail + TokenFileSuffix, verdict.token)
    {
      var stop := start + expiresIn * 1000000;
      requests := [];
      sleeps := [];
      saved := NothingSaved;
      var i := 0;
      while i < |polls|
        invariant i <= |polls|
        invariant forall j :: 0 <= j < i ==> KeepsPolling(polls[j], stop)
        invariant Settled(polls, stop, 0) == Settled(polls, stop, i)
        invariant |requests| == i && forall j :: 0 <= j < i ==> requests[j] == (url, data)
        invariant |sleeps| == i && forall j :: 0 <= j < i ==> sleeps[j] == interval
      {
        var p := polls[i];
        requests := requests + [(url, data)];
        if p.PollRaised? {
          verdict := Crashed;
          return;
        }
        if p.status == 200 {
          verdict := Authorized(p.body);
          saved := if writeFails then TokenLogged(p.body) else TokenFile(targetEmail + TokenFileSuffix, p.body);
          return;
        }
        if p.error.None? {
          verdict := Crashed;
          return;
        }
        if p.error.value != PendingError {
          verdict := Denied;
          return;
        }
        if p.now >= stop {
          verdict := Expired;
          return;
        }
        sleeps := sleeps + [interval];
        i := i + 1;
      }
      verdict := StillPolling;
    }
  }

  /** Polling ends at the first reply that does not keep it going. */
  lemma {:induction false} SettledAt(polls: seq<Poll>, stop: int, k: nat, i: nat)
    requires i <= k < |polls|
    requires forall j :: i <= j < k ==> KeepsPolling(polls[j], stop)
    requires !KeepsPolling(polls[k], stop)
    ensures Settled(polls, stop, i) == k
    decreases k - i
  {
    if i < k {
      SettledAt(polls, stop, k, i + 1);
    }
  }

  /**
   * Any non-200 reply whose error is not `authorization_pending` ends
   * polling as a refusal after exactly k + 1 requests, whatever follows.
   */
  lemma RefusalEndsPolling(polls: seq<Poll>, stop: int, k: nat)
    requires k < |polls|
    requires forall j :: 0 <= j < k ==> KeepsPolling(polls[j], stop)
    requires polls[k].Poll? && polls[k].status != 200 && polls[k].error.Some? && polls[k].error.value != PendingError
    ensures Outcome(polls, stop) == Denied
    ensures Requests(polls, stop) == k + 1
  {
    SettledAt(polls, stop, k, 0);
  }

  /** RFC 8628's `slow_down` is not honoured: the first one ends polling as a refusal. */
  lemma SlowDownIsRefusal(p: Poll, rest: seq<Poll>, stop: int)
    requires p.Poll? && p.status != 200 && p.error == Some("slow_down")
    ensures Outcome([p] + rest, stop) == Denied
    ensures Requests([p] + rest, stop) == 1
  {
    RefusalEndsPolling([p] + rest, stop, 0);
  }

  /** A pending reply read at or after the deadline ends polling as expired. */
  lemma ExpiryEndsPolling(polls: seq<Poll>, stop: int, k: nat)
    requires k < |polls|
    requires forall j :: 0 <= j < k ==> KeepsPolling(polls[j], stop)
    requires polls[k].Poll? && polls[k].status != 200 && polls[k].error == Some(PendingError) && polls[k].now >= stop
    ensures Outcome(polls, stop) == Expired
    ensures Requests(polls, stop) == k + 1
  {
    SettledAt(polls, stop, k, 0);
  }

  /**
   * A POST that raises kills the polling thread: polling ends as a crash
   * after exactly k + 1 requests, whatever follows, and nothing is saved.
   */
  lemma RaisedRequestEndsPolling(polls: seq<Poll>, stop: int, k: nat)
    requires k < |polls|
    requires forall j :: 0 <= j < k ==> KeepsPolling(polls[j], stop)
    requires polls[k].PollRaised?
    ensures Outcome(polls, stop) == Crashed
    ensures Requests(polls, stop) == k + 1
  {
    SettledAt(polls, stop, k, 0);
  }

  /**
   * Expiry is only checked after a pending reply: an approval is accepted
   * whenever it arrives, even when its reading is past the deadline.
   */
  lemma ApprovalIgnoresDeadline(polls: seq<Poll>, stop: int, k: nat)
    requires k < |polls|
    requires forall j :: 0 <= j < k ==> KeepsPolling(polls[j], stop)
    requires polls[k].Poll? && polls[k].status == 200
    ensures Outcome(polls, stop) == Authorized(polls[k].body)
    ensures Requests(polls, stop) == k + 1
  {
    SettledAt(polls, stop, k, 0);
  }

  /** Once polling has ended, later replies change nothing: no request follows the terminating one. */
  lemma {:induction false} SettledIgnoresLater(polls: seq<Poll>, more: seq<Poll>, stop: int, i: nat)
    requires i <= |polls| && Settled(polls, stop, i) < |polls|
    ensures Settled(polls + more, stop, i) == Settled(polls, stop, i)
    decreases |polls| - i
  {
    assert (polls + more)[i] == polls[i];
    if KeepsPolling(polls[i], stop) {
      SettledIgnoresLater(polls, more, stop, i + 1);
    }
  }

  lemma OutcomeIgnoresLater(polls: seq<Poll>, more: seq<Poll>, stop: int)
    requires Settled(polls, stop, 0) < |polls|
    ensures Outcome(polls + more, stop) == Outcome(polls, stop)
    ensures Requests(polls + more, stop) == Requests(polls, stop)
  {
    SettledIgnoresLater(polls, more, stop, 0);
    var k := Settled(polls, stop, 0);
    assert (polls + more)[k] == polls[k];
  }

  /** Every reply before the terminating one was pending and read before the deadline, and one sleep follows each. */
  lemma TraceBeforeEnd(polls: seq<Poll>, stop: int, j: nat)
    requires j < Settled(polls, stop, 0)
    ensures polls[j].Poll? && polls[j].status != 200 && polls[j].error == Some(PendingError) && polls[j].now < stop
  {
  }
}
