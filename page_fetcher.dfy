/**
 * The default page fetcher: up to five attempts to read a page, with an
 * exponential pause after each timed-out attempt, all attempts appending to
 * one text buffer.
 *
 * The connection and its stream are not modelled. What the network does on
 * attempt k is given as `network(k)`: the chunks the stream yields, in read
 * order, and how the attempt ends. The pauses are recorded as a list of
 * delays in milliseconds instead of being slept.
 */
module PageFetcher {

  const MaxRetries: nat := 5

  /** How one attempt ends: end of stream, a socket timeout, or any other exception. */
  datatype Ending = Done | Timeout | OtherError

  /** The scripted behaviour of one attempt. */
  datatype Attempt = Attempt(chunks: seq<string>, ending: Ending)

  /** The two ways the fetch throws. */
  datatype FetchError =
    | RetriesExhausted   // the last allowed attempt timed out
    | NonTimeoutFailure  // an exception other than a timeout, passed on as it is

  datatype Result<T, E> = Ok(value: T) | Err(error: E)

  /** What one read of the stream ends with: its text, or the exception it throws. */
  datatype ReadOutcome = ReadDone(text: string) | ReadTimedOut | ReadFailed

  function Pow2(n: nat): (r: nat)
    ensures r >= 1
  {
    if n == 0 then 1 else 2 * Pow2(n - 1)
  }

  /** The pause, in milliseconds, after a timeout on `attempt`: 1000 shifted left by attempt - 1. */
  function Backoff(attempt: nat): nat
    requires attempt >= 1
  {
    1000 * Pow2(attempt - 1)
  }

  /** The pauses taken after the first `n` timed-out attempts, in order. */
  function BackoffSchedule(n: nat): (r: seq<nat>)
    ensures |r| == n
    ensures forall k :: 0 <= k < n ==> r[k] == Backoff(k + 1)
  {
    if n == 0 then [] else BackoffSchedule(n - 1) + [Backoff(n)]
  }

  function Concat(chunks: seq<string>): string {
    if chunks == [] then [] else Concat(chunks[..|chunks| - 1]) + chunks[|chunks| - 1]
  }

  /** Everything appended to the shared buffer by attempts 1 to `n`. */
  function Buffered(network: nat -> Attempt, n: nat): string {
    if n == 0 then [] else Buffered(network, n - 1) + Concat(network(n).chunks)
  }

  /** A growable text buffer, appended to in place. */
  class StringBuilder {
    var text: string

    constructor ()
      ensures text == []
    {
      text := [];
    }

    method Append(chunk: string)
      modifies this
      ensures text == old(text) + chunk
    {
      text := text + chunk;
    }
  }

  /**
   * Reads one attempt's stream to its end, appending every chunk to
   * `content`. Chunks read before a timeout or another failure stay in
   * `content`.
   */
  method BufferInputStream(content: StringBuilder, response: Attempt) returns (r: ReadOutcome)
    modifies content
    ensures content.text == old(content.text) + Concat(response.chunks)
    ensures response.ending == Done ==> r == ReadDone(content.text)
    ensures response.ending == Timeout ==> r == ReadTimedOut
    ensures response.ending == OtherError ==> r == ReadFailed
  {
    var i := 0;
    while i < |response.chunks|
      invariant 0 <= i <= |response.chunks|
      invariant content.text == old(content.text) + Concat(response.chunks[..i])
    {
      assert response.chunks[..i + 1][..i] == response.chunks[..i];
      content.Append(response.chunks[i]);
      i := i + 1;
    }
    assert response.chunks[..i] == response.chunks;
    match response.ending
    case Done => r := ReadDone(content.text);
    case Timeout => r := ReadTimedOut;
    case OtherError => r := ReadFailed;
  }

  /**
   * Fetches one page. `attempts` is the number of attempts made and `sleeps`
   * the pauses taken between them.
   */
  method FetchPageContent(network: nat -> Attempt) returns (r: Result<string, FetchError>, sleeps: seq<nat>, attempts: nat)
    ensures 1 <= attempts <= MaxRetries
    ensures forall k :: 1 <= k < attempts ==> network(k).ending == Timeout
    ensures sleeps == BackoffSchedule(attempts - 1)
    ensures network(attempts).ending == Done ==> r == Ok(Buffered(network, attempts))
    ensures network(attempts).ending == OtherError ==> r == Err(NonTimeoutFailure)
    ensures network(attempts).ending == Timeout ==> attempts == MaxRetries && r == Err(RetriesExhausted)
  {
    var content := new StringBuilder();
    sleeps := [];
    var attempt: nat := 1;
    while attempt <= MaxRetries
      invariant 1 <= attempt <= MaxRetries
      invariant forall k :: 1 <= k < attempt ==> network(k).ending == Timeout
      invariant sleeps == BackoffSchedule(attempt - 1)
      invariant content.text == Buffered(network, attempt - 1)
      decreases MaxRetries - attempt
    {
      var read := BufferInputStream(content, network(attempt));
      match read
      case ReadDone(text) =>
        r, attempts := Ok(text), attempt;
        return;
      case ReadFailed =>
        r, attempts := Err(NonTimeoutFailure), attempt;
        return;
      case ReadTimedOut =>
        if attempt == MaxRetries {
          r, attempts := Err(RetriesExhausted), attempt;
          return;
        }
        sleeps := sleeps + [Backoff(attempt)];
        attempt := attempt + 1;
    }
    // The throw after the loop cannot be reached: the last attempt always returns.
    assert false;
  }

  /** Each pause is twice the one before, starting at one second. */
  lemma {:induction false} BackoffDoubles(k: nat)
    requires k >= 1
    ensures Backoff(1) == 1000
    ensures Backoff(k + 1) == 2 * Backoff(k)
  {
  }

  /** The whole schedule of pauses for a fetch whose first four attempts time out. */
  lemma BackoffScheduleValues()
    ensures BackoffSchedule(MaxRetries - 1) == [1000, 2000, 4000, 8000]
  {
    assert Pow2(1) == 2 && Pow2(2) == 4 && Pow2(3) == 8;
  }

  lemma {:induction false} ConcatAppend(a: seq<string>, b: seq<string>)
    ensures Concat(a + b) == Concat(a) + Concat(b)
    decreases |b|
  {
    if b == [] {
      assert a + b == a;
    } else {
      var b' := b[..|b| - 1];
      assert (a + b)[..|a + b| - 1] == a + b';
      ConcatAppend(a, b');
    }
  }

  /**
   * The text a fetch returns after timeouts holds, before the successful
   * attempt's chunks, every chunk the timed-out attempts read, attempt by
   * attempt in order.
   */
  lemma {:induction false} BufferedIsAllChunks(network: nat -> Attempt, n: nat)
    ensures Buffered(network, n) == Concat(AllChunks(network, n))
  {
    if n > 0 {
      BufferedIsAllChunks(network, n - 1);
      ConcatAppend(AllChunks(network, n - 1), network(n).chunks);
    }
  }

  /** The chunks read by attempts 1 to `n`, in read order. */
  function AllChunks(network: nat -> Attempt, n: nat): seq<string> {
    if n == 0 then [] else AllChunks(network, n - 1) + network(n).chunks
  }
}
