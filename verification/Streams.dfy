/** Byte streams that deliver and accept data in arbitrary pieces, and the loops that hide it. */
module Streams {

  /** The writing side of a connection. A write may take part of the data, and may fail. */
  class Sink<T> {
    var sent: seq<T>
    /** How many writes failed or took nothing. */
    var failures: nat

    constructor ()
      ensures sent == [] && failures == 0
    {
      sent, failures := [], 0;
    }

    method Write(b: seq<T>) returns (n: nat, ok: bool)
      modifies this
      ensures n <= |b| && sent == old(sent) + b[..n]
      ensures failures == old(failures) + if !ok || n == 0 then 1 else 0
    {
      n :| 0 <= n <= |b|;
      ok := *;
      sent := sent + b[..n];
      failures := failures + if !ok || n == 0 then 1 else 0;
    }
  }

  /** Writes everything or stops at the first failing write; what went out is always a prefix. */
  method WriteAll<T>(w: Sink<T>, data: seq<T>) returns (ok: bool, ghost taken: nat)
    modifies w
    ensures taken <= |data| && w.sent == old(w.sent) + data[..taken]
    ensures ok ==> w.sent == old(w.sent) + data
    ensures ok <==> w.failures == old(w.failures)
    ensures w.failures >= old(w.failures)
  {
    var b := data;
    taken := 0;
    while |b| > 0
      invariant taken + |b| == |data| && b == data[taken..]
      invariant w.sent == old(w.sent) + data[..taken] && w.failures == old(w.failures)
      decreases |b|
    {
      var n, written := w.Write(b);
      assert data[..taken] + b[..n] == data[..taken + n];
      taken := taken + n;
      if !written {
        return false, taken;
      }
      if n == 0 {
        return false, taken;
      }
      b := b[n..];
    }
    assert data[..taken] == data;
    ok := true;
  }

  /** The reading side. `incoming` is all that will still arrive before the end of the stream. */
  class Source<T> {
    var incoming: seq<T>

    constructor (incoming: seq<T>)
      ensures this.incoming == incoming
    {
      this.incoming := incoming;
    }

    method Read(limit: nat) returns (b: seq<T>)
      requires limit > 0
      modifies this
      ensures |b| <= limit && old(incoming) == b + incoming
      ensures b == [] <==> old(incoming) == []
    {
      if incoming == [] {
        return [];
      }
      var n: nat :| 1 <= n <= |incoming| && n <= limit;
      b := incoming[..n];
      incoming := incoming[n..];
    }
  }

  /** Reads exactly `n` items, however the stream is cut into pieces, or drains a stream that is too short. */
  method ReadFull<T>(r: Source<T>, n: nat) returns (b: seq<T>, ok: bool)
    modifies r
    ensures ok <==> n <= |old(r.incoming)|
    ensures old(r.incoming) == b + r.incoming
    ensures if ok then |b| == n else r.incoming == []
  {
    b := [];
    while |b| < n
      invariant |b| <= n && old(r.incoming) == b + r.incoming
      decreases n - |b|
    {
      var more := r.Read(n - |b|);
      if more == [] {
        return b, false;
      }
      b := b + more;
    }
    ok := true;
  }
}
