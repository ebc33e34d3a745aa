/** Incremental decoders in general: when splitting the input into chunks cannot be observed. */
module Streaming {
  import opened Messages

  type Bytes = string

  /** All complete frames of a buffer, what is left of it, and whether decoding failed. */
  datatype Drained = Drained(bodies: seq<Bytes>, rest: Bytes, failed: bool) {
    function After(first: seq<Bytes>): Drained {
      Drained(first + bodies, rest, failed)
    }
  }

  lemma AfterConcat(d: Drained, a: seq<Bytes>, b: seq<Bytes>)
    ensures d.After(b).After(a) == d.After(a + b) && d.After([]) == d
  {
    assert a + (b + d.bodies) == a + b + d.bodies;
  }

  /** Decoding what is left of `a` together with more input continues where decoding `a` stopped. */
  ghost predicate Continues(drain: Bytes -> Drained) {
    forall a, b :: !drain(a).failed ==> drain(a + b) == drain(drain(a).rest + b).After(drain(a).bodies)
  }

  /** A sequence of pushes, up to the first that fails. */
  function Feed(drain: Bytes -> Drained, buffer: Bytes, chunks: seq<Bytes>): Drained
    decreases |chunks|
  {
    if chunks == [] then Drained([], buffer, false)
    else
      var d := drain(buffer + chunks[0]);
      if d.failed then d else Feed(drain, d.rest, chunks[1..]).After(d.bodies)
  }

  lemma {:induction false} FeedIsOnePush(drain: Bytes -> Drained, buffer: Bytes, chunks: seq<Bytes>)
    requires Continues(drain) && chunks != [] && !Feed(drain, buffer, chunks).failed
    ensures Feed(drain, buffer, chunks) == drain(buffer + Flatten(chunks))
    decreases |chunks|
  {
    var s, rest := buffer + chunks[0], Flatten(chunks[1..]);
    var d := drain(s);
    assert buffer + Flatten(chunks) == s + rest;
    if chunks[1..] == [] {
      assert s + rest == s;
      assert d.bodies + [] == d.bodies;
    } else {
      FeedIsOnePush(drain, d.rest, chunks[1..]);
    }
  }

  /** If no prefix of a stream fails, no chunking of it fails. */
  lemma {:induction false} FeedDoesNotFail(drain: Bytes -> Drained, fed: Bytes, chunks: seq<Bytes>)
    requires Continues(drain) && !drain(fed).failed
    requires forall n :: 0 <= n <= |fed + Flatten(chunks)| ==> !drain((fed + Flatten(chunks))[..n]).failed
    ensures !Feed(drain, drain(fed).rest, chunks).failed
    decreases |chunks|
  {
    if chunks != [] {
      var all, more := fed + Flatten(chunks), fed + chunks[0];
      assert more + Flatten(chunks[1..]) == all;
      assert all[..|more|] == more;
      assert drain(more) == drain(drain(fed).rest + chunks[0]).After(drain(fed).bodies);
      FeedDoesNotFail(drain, more, chunks[1..]);
    }
  }
}
