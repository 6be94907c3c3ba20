/** Bounded capture of a process's two output streams by two threads (src/loro/sandbox.py:543-606). */
module Capture {
  import opened Common

  newtype Byte = x: int | 0 <= x < 256

  const CHUNK := 65536

  function Cap(limit: int): nat {
    if limit < 0 then 0 else limit
  }

  /** The two buffers and the `state` dictionary the threads share. */
  class Shared {
    const limit: int
    var stdout: seq<Byte>
    var stderr: seq<Byte>
    var captured: nat
    var truncated: bool
    var killed: bool

    constructor (limit: int)
      ensures this.limit == limit && Holds([], []) && !killed
    {
      this.limit := limit;
      stdout, stderr, captured, truncated, killed := [], [], 0, false, false;
    }

    /** What is true between critical sections, when the threads have handed over these bytes so far. */
    ghost predicate Holds(out: seq<Byte>, err: seq<Byte>)
      reads this
    {
      && stdout <= out && stderr <= err
      && captured == |stdout| + |stderr| == Min(|out| + |err|, Cap(limit))
      && (truncated <==> |out| + |err| > Cap(limit))
      && (!truncated ==> stdout == out && stderr == err)
      && (truncated <==> killed)
    }

    /** The body of `with lock`: keep what still fits, and kill the process the first time something does not. */
    method Accept(toStdout: bool, chunk: seq<Byte>, ghost out: seq<Byte>, ghost err: seq<Byte>)
      requires Holds(out, err) && chunk != []
      modifies this
      ensures if toStdout then Holds(out + chunk, err) else Holds(out, err + chunk)
    {
      var remaining: nat := if limit - captured > 0 then limit - captured else 0;
      var kept := chunk[..Min(|chunk|, remaining)];
      if toStdout {
        stdout := stdout + kept;
      } else {
        stderr := stderr + kept;
      }
      captured := captured + Min(|chunk|, remaining);
      if |chunk| > remaining && !truncated {
        truncated := true;
        killed := true;
      }
    }
  }

  /** One drain thread: its stream, how much it has read, the chunk it read but has not handed over, and its end. */
  datatype Thread = Thread(stream: seq<Byte>, read: nat, pending: Option<seq<Byte>>, finished: bool)

  ghost predicate Consistent(t: Thread) {
    && t.read <= |t.stream|
    && (t.pending.Some? ==> t.pending.value != [] && |t.pending.value| <= t.read
                            && t.stream[t.read - |t.pending.value|..t.read] == t.pending.value)
    && (t.finished ==> t.read == |t.stream| && t.pending.None?)
  }

  /** The bytes the thread has handed over. */
  ghost function HandedOver(t: Thread): seq<Byte>
    requires Consistent(t)
  {
    t.stream[..t.read - (if t.pending.Some? then |t.pending.value| else 0)]
  }

  function Work(t: Thread): int {
    2 * (|t.stream| - t.read) + (if t.pending.Some? then 1 else 0) + (if t.finished then 0 else 1)
  }

  datatype Result = TimedOut | Exited(returnCode: int, stdout: seq<Byte>, stderr: seq<Byte>, truncated: bool)

  const TRUNCATED_CODE := 125

  /** One scheduling of one thread: read a chunk of any size, or hand over the chunk it holds, or stop. */
  method Tick(shared: Shared, toStdout: bool, t: Thread, ghost other: seq<Byte>) returns (t': Thread)
    requires Consistent(t) && !t.finished
    requires if toStdout then shared.Holds(HandedOver(t), other) else shared.Holds(other, HandedOver(t))
    modifies shared
    ensures Consistent(t') && t'.stream == t.stream && 0 <= Work(t') < Work(t)
    ensures if toStdout then shared.Holds(HandedOver(t'), other) else shared.Holds(other, HandedOver(t'))
  {
    if t.pending.Some? {
      t' := t.(pending := None);
      HandOver(t);
      if toStdout {
        shared.Accept(true, t.pending.value, HandedOver(t), other);
      } else {
        shared.Accept(false, t.pending.value, other, HandedOver(t));
      }
    } else if t.read == |t.stream| {
      t' := t.(finished := true);
    } else {
      var size: nat :| 1 <= size <= CHUNK && t.read + size <= |t.stream|;
      t' := t.(read := t.read + size, pending := Some(t.stream[t.read..t.read + size]));
      ReadMore(t, t');
    }
  }

  lemma HandOver(t: Thread)
    requires Consistent(t) && t.pending.Some?
    ensures Consistent(t.(pending := None))
    ensures HandedOver(t.(pending := None)) == HandedOver(t) + t.pending.value
  {
  }

  lemma ReadMore(t: Thread, t': Thread)
    requires Consistent(t) && t.pending.None? && !t.finished && t.read < t'.read <= |t.stream|
    requires t' == t.(read := t'.read, pending := Some(t.stream[t.read..t'.read]))
    ensures Consistent(t') && HandedOver(t') == HandedOver(t)
  {
  }

  /**
   * `_run_bounded` under every interleaving of the two threads and every chunk size. `out` and `err` are the
   * bytes the process wrote before its pipes closed. Each result is a prefix of its stream; together they hold
   * all of the output or exactly the limit; truncation is reported exactly when there was more; and a truncated
   * run never reports success.
   */
  method RunBounded(out: seq<Byte>, err: seq<Byte>, limit: int, code: int, timedOut: bool) returns (r: Result)
    ensures r.TimedOut? <==> timedOut
    ensures r.Exited? ==>
              var most: nat := if limit < 0 then 0 else limit;
              && r.stdout <= out && r.stderr <= err
              && (r.truncated <==> |out| + |err| > most)
              && (!r.truncated ==> r.stdout == out && r.stderr == err && r.returnCode == code)
              && (r.truncated ==> |r.stdout| + |r.stderr| == most && r.returnCode == if code == 0 then 125 else code)
  {
    var shared := new Shared(limit);
    var a, b := Thread(out, 0, None, false), Thread(err, 0, None, false);
    while !a.finished || !b.finished
      invariant Consistent(a) && Consistent(b) && a.stream == out && b.stream == err
      invariant shared.limit == limit && fresh(shared) && shared.Holds(HandedOver(a), HandedOver(b))
      invariant 0 <= Work(a) && 0 <= Work(b)
      decreases Work(a) + Work(b)
    {
      var first: bool :| (first ==> !a.finished) && (!first ==> !b.finished);
      if first {
        a := Tick(shared, true, a, HandedOver(b));
      } else {
        b := Tick(shared, false, b, HandedOver(a));
      }
    }
    if timedOut { return TimedOut; }
    var returnCode := if shared.truncated && code == 0 then TRUNCATED_CODE else code;
    r := Exited(returnCode, shared.stdout, shared.stderr, shared.truncated);
  }
}
