/** The retry wrapper with exponential backoff around download_file. */
module Retry {

  datatype Option<T> = None | Some(value: T)

  // ---- what can go wrong --------------------------------------------------

  /** Exceptions by the classes _is_retryable tells apart. HttpError carries the status of the
      response, if there is one. */
  datatype Error =
    | Timeout
    | ConnectionFailed
    | ServerDisconnected
    | HttpError(status: Option<int>)
    | ClientResponseError(code: int)
    | OtherError

  predicate IsRetryable(e: Error)
  {
    match e
    case Timeout => true
    case ConnectionFailed => true
    case ServerDisconnected => true
    case HttpError(status) => status.Some? && status.value >= 500
    case ClientResponseError(code) => code >= 500
    case OtherError => false
  }

  /** The status of the response that the exception carries, if there is one. */
  function StatusOf(e: Error): Option<int>
  {
    match e
    case HttpError(status) => status
    case ClientResponseError(code) => Some(code)
    case _ => None
  }

  /** What may pass: a timeout, a lost connection, or a status of 500 or more. */
  ghost predicate Transient(e: Error)
  {
    || e in {Timeout, ConnectionFailed, ServerDisconnected}
    || (StatusOf(e).Some? && StatusOf(e).value >= 500)
  }

  type Bytes = seq<bv8>

  /** What the server does to one attempt: it fails before the file is opened, it fails after
      some chunks, or it delivers all chunks. */
  datatype Transfer =
    | Refused(error: Error)
    | Broken(chunks: seq<Bytes>, error: Error)
    | Complete(chunks: seq<Bytes>)

  datatype Outcome = Returned | Raised(error: Error)

  function OutcomeOf(t: Transfer): Outcome
  {
    if t.Complete? then Returned else Raised(t.error)
  }

  function Concat(chunks: seq<Bytes>): Bytes
  {
    if chunks == [] then [] else Concat(chunks[..|chunks| - 1]) + chunks[|chunks| - 1]
  }

  // ---- backoff ------------------------------------------------------------

  const FACTOR := 4

  function Pow4(k: nat): (p: nat)
    ensures p >= 1
  {
    if k == 0 then 1 else FACTOR * Pow4(k - 1)
  }

  /** Seconds slept before attempt k. */
  function Slept(k: nat): nat
  {
    if k == 0 then 0 else Slept(k - 1) + Pow4(k - 1)
  }

  /** The backoff is geometric: after j retries (4^j - 1) / 3 seconds have been slept. */
  lemma {:induction false} SleptIsGeometric(j: nat)
    ensures 3 * Slept(j) == Pow4(j) - 1
  {
    if j > 0 { SleptIsGeometric(j - 1); }
  }

  function Lengthened(timeout: real, factor: nat): real { timeout * factor as real }

  function AttemptTimeout(base: Option<real>, k: nat): Option<real>
  {
    if base.None? then None else Some(Lengthened(base.value, Pow4(k)))
  }

  /** No timeout stays none, and any other becomes four times as long. */
  ghost predicate FourTimes(a: Option<real>, b: Option<real>)
  {
    if a.None? then b.None? else b == Some(4.0 * a.value)
  }

  lemma Quadruple(x: real, p: nat, q: nat)
    requires q == 4 * p
    ensures Lengthened(x, q) == 4.0 * Lengthened(x, p)
  {
    var r := p as real;
    assert q as real == 4.0 * r;
    assert x * (4.0 * r) == 4.0 * (x * r);
  }

  lemma TimeoutsGrow(base: Option<real>, timeouts: seq<Option<real>>)
    requires |timeouts| > 0 && forall k :: 0 <= k < |timeouts| ==> timeouts[k] == AttemptTimeout(base, k)
    ensures timeouts[0] == base && forall k :: 0 < k < |timeouts| ==> FourTimes(timeouts[k - 1], timeouts[k])
  {
    assert Pow4(0) == 1;
    if base.Some? { assert Lengthened(base.value, 1) == base.value; }
    forall k | 0 < k < |timeouts| ensures FourTimes(timeouts[k - 1], timeouts[k]) {
      TimeoutGrows(base, k);
    }
  }

  lemma TimeoutGrows(base: Option<real>, k: nat)
    requires k > 0
    ensures FourTimes(AttemptTimeout(base, k - 1), AttemptTimeout(base, k))
  {
    if base.Some? {
      var p, q := Pow4(k - 1), Pow4(k);
      assert q == 4 * p;
      Quadruple(base.value, p, q);
    }
  }

  // ---- download_file under the wrapper ------------------------------------

  class Downloader {
    /** The file at the save path, if there is one. */
    var file: Option<Bytes>
    /** Timeout of each call made, in order. */
    var timeouts: seq<Option<real>>
    var slept: nat

    constructor (file: Option<Bytes>)
      ensures this.file == file && timeouts == [] && slept == 0
    {
      this.file, timeouts, slept := file, [], 0;
    }

    /** The decorated body: an attempt that fails in any way removes the file. */
    method DownloadFile(t: Transfer, timeout: Option<real>) returns (o: Outcome)
      modifies this`file, this`timeouts
      ensures o == OutcomeOf(t) && timeouts == old(timeouts) + [timeout]
      ensures file == if t.Complete? then Some(Concat(t.chunks)) else None
    {
      timeouts := timeouts + [timeout];
      if !t.Refused? {
        file := Some([]);
        for i := 0 to |t.chunks|
          invariant file == Some(Concat(t.chunks[..i]))
          invariant timeouts == old(timeouts) + [timeout]
        {
          file := Some(file.value + t.chunks[i]);
          assert t.chunks[..i + 1][..i] == t.chunks[..i];
        }
        assert t.chunks[..|t.chunks|] == t.chunks;
      }
      if t.Complete? { return Returned; }
      if file.Some? { file := None; }
      o := Raised(t.error);
    }

    /** The wrapper: n calls are made, at most max(retries, 1); every call before the last one
        failed with a retryable error, the last one did not or was the last allowed; call k has
        timeout base * 4^k. A return leaves exactly the last attempt's chunks, a raise leaves
        no file. */
    method DownloadWithRetry(server: nat -> Transfer, base: Option<real>, retries: int)
        returns (o: Outcome, ghost n: nat)
      requires timeouts == [] && slept == 0
      modifies this
      ensures 1 <= n <= (if retries > 1 then retries else 1)
      ensures o == OutcomeOf(server(n - 1))
      ensures forall k: nat :: k < n - 1 ==> OutcomeOf(server(k)).Raised? && Transient(OutcomeOf(server(k)).error)
      ensures o.Returned? || !Transient(o.error) || n == (if retries > 1 then retries else 1)
      ensures |timeouts| == n && timeouts[0] == base
      ensures forall k :: 0 < k < n ==> FourTimes(timeouts[k - 1], timeouts[k])
      ensures 3 * slept == Pow4(n - 1) - 1
      ensures file == if o.Returned? then Some(Concat(server(n - 1).chunks)) else None
    {
      var maxRetries := if retries > 1 then retries else 1;
      for attempt := 0 to maxRetries
        invariant forall k: nat :: k < attempt ==>
          OutcomeOf(server(k)).Raised? && IsRetryable(OutcomeOf(server(k)).error)
        invariant |timeouts| == attempt && forall k :: 0 <= k < attempt ==> timeouts[k] == AttemptTimeout(base, k)
        invariant slept == Slept(attempt)
        invariant attempt < maxRetries
      {
        o := DownloadFile(server(attempt), AttemptTimeout(base, attempt));
        if o.Returned? || !IsRetryable(o.error) || attempt + 1 >= maxRetries {
          n := attempt + 1;
          SleptIsGeometric(attempt);
          TimeoutsGrow(base, timeouts);
          return;
        }
        slept := slept + Pow4(attempt);
      }
      assert false;
    }
  }
}
