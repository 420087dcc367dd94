/** Values shared by every part of the pipeline: bookmarks as the remote store
    returns them, the answer of a link probe, the items of the two queues with
    their `None` sentinel, and the ways a queue-draining worker loop can end. */
module Basics {

  datatype Option<+T> = None | Some(value: T)

  /** A bookmark record: `href`, `description`, `extended`, `tags` and the
      `time_parsed` tuple (year, month, day, hour, ...). */
  datatype Bookmark = Bookmark(
    href: string,
    description: string,
    extended: string,
    tags: seq<string>,
    timeParsed: seq<int>)

  /** The parts of an HTTP response the prober looks at: the status code and
      the `location` header, when there is one. */
  datatype Response = Response(status: int, location: Option<string>)

  /** The outcome of `requests.head`: a response, or an exception. */
  datatype ProbeResult = Responded(response: Response) | Raised

  /** An entry of the update queue: a bookmark and the URL it redirects to. */
  datatype UpdateItem = UpdateItem(bookmark: Bookmark, newUrl: string)

  /** How a `while True` loop draining a finite queue ends: it took a sentinel,
      it found the queue empty (the real `get()` would block for ever there),
      or an exception escaped the loop and ended the thread. */
  datatype Exit = SawSentinel | QueueEmpty | Crashed

  /** The real items a worker takes before the first sentinel. */
  function Drain<T>(q: seq<Option<T>>): (items: seq<T>)
    ensures |items| <= |q|
    ensures forall i :: 0 <= i < |items| ==> q[i] == Some(items[i])
    ensures |items| < |q| ==> q[|items|] == None
  {
    if q == [] || q[0] == None then [] else [q[0].value] + Drain(q[1..])
  }

  /** Real items as they are put on a queue. */
  function Wrap<T>(xs: seq<T>): (q: seq<Option<T>>)
    ensures |q| == |xs|
    ensures forall i :: 0 <= i < |xs| ==> q[i] == Some(xs[i])
  {
    seq(|xs|, i requires 0 <= i < |xs| => Some(xs[i]))
  }

  /** `n` sentinels in a row. */
  function Sentinels<T>(n: nat): (q: seq<Option<T>>)
    ensures |q| == n
    ensures forall i :: 0 <= i < n ==> q[i] == None
  {
    seq(n, i => None)
  }

  /** Proof helper: sequence concatenation is associative. */
  lemma AppendTwice<T>(a: seq<T>, b: seq<T>, c: seq<T>)
    ensures (a + b) + c == a + (b + c)
  {
  }

  /** A sentinel behind a queue's real items hides everything after it. */
  lemma {:induction false} DrainWrapped<T>(xs: seq<T>, rest: seq<Option<T>>)
    ensures Drain(Wrap(xs) + [None] + rest) == xs
  {
    if xs != [] {
      assert (Wrap(xs) + [None] + rest)[1..] == Wrap(xs[1..]) + [None] + rest;
      DrainWrapped(xs[1..], rest);
    }
  }

  /** A queue without a sentinel is drained completely. */
  lemma {:induction false} DrainAll<T>(xs: seq<T>)
    ensures Drain(Wrap(xs)) == xs
  {
    if xs != [] {
      assert Wrap(xs)[1..] == Wrap(xs[1..]);
      DrainAll(xs[1..]);
    }
  }

  /** Python's slice `s[:n]`: the first `n` elements, or all of a shorter `s`. */
  function Prefix<T>(s: seq<T>, n: nat): (r: seq<T>)
    ensures |r| == if |s| < n then |s| else n
    ensures forall i :: 0 <= i < |r| ==> r[i] == s[i]
  {
    if |s| <= n then s else s[..n]
  }
}
