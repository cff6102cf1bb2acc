/**
  The output budget that the standard output and the standard error of a command share
  (internal/ass/server.go, limitedOutput). One write is one critical section, so a run is a sequence
  of writes in the order in which they got the lock.
*/
module OutputBudget {
  import opened Text

  const DEFAULT_BYTES: nat := 262144

  datatype Write = Write(isStderr: bool, payload: string)

  datatype Output = Output(remaining: int, stdout: string, stderr: string, truncated: bool)

  function NewOutput(maxBytes: int): Output
  {
    Output(if maxBytes <= 0 then DEFAULT_BYTES else maxBytes, "", "", false)
  }

  function WriteOne(o: Output, w: Write): Output
  {
    if o.remaining <= 0 then o.(truncated := true)
    else
      var kept := if |w.payload| > o.remaining then w.payload[..o.remaining] else w.payload;
      var next := o.(remaining := o.remaining - |kept|, truncated := o.truncated || |w.payload| > o.remaining);
      if w.isStderr then next.(stderr := o.stderr + kept) else next.(stdout := o.stdout + kept)
  }

  function WriteAll(o: Output, writes: seq<Write>): Output
    decreases |writes|
  {
    if writes == [] then o else WriteAll(WriteOne(o, writes[0]), writes[1..])
  }

  // ----- an independent account: byte by byte

  datatype Byte = Byte(isStderr: bool, value: char)

  /** Every byte written, tagged with its stream, in the order of the writes. */
  function Bytes(writes: seq<Write>): seq<Byte>
  {
    if writes == [] then [] else Tagged(writes[0].isStderr, writes[0].payload) + Bytes(writes[1..])
  }

  function Tagged(isStderr: bool, payload: string): seq<Byte>
  {
    seq(|payload|, i requires 0 <= i < |payload| => Byte(isStderr, payload[i]))
  }

  /** The bytes of one stream. */
  function Stream(bytes: seq<Byte>, isStderr: bool): string
  {
    if bytes == [] then ""
    else (if bytes[0].isStderr == isStderr then [bytes[0].value] else "") + Stream(bytes[1..], isStderr)
  }

  function First(bytes: seq<Byte>, n: nat): seq<Byte>
  {
    if |bytes| <= n then bytes else bytes[..n]
  }

  lemma {:induction false} StreamAppend(a: seq<Byte>, b: seq<Byte>, isStderr: bool)
    ensures Stream(a + b, isStderr) == Stream(a, isStderr) + Stream(b, isStderr)
  {
    if a == [] {
      assert a + b == b;
    } else {
      assert (a + b)[0] == a[0] && (a + b)[1..] == a[1..] + b;
      StreamAppend(a[1..], b, isStderr);
      var head := if a[0].isStderr == isStderr then [a[0].value] else "";
      Associate(head, Stream(a[1..], isStderr), Stream(b, isStderr));
    }
  }

  lemma {:induction false} StreamOfTagged(isStderr: bool, payload: string, which: bool)
    ensures Stream(Tagged(isStderr, payload), which) == if which == isStderr then payload else ""
  {
    if payload != "" {
      assert Tagged(isStderr, payload)[1..] == Tagged(isStderr, payload[1..]);
      StreamOfTagged(isStderr, payload[1..], which);
    }
  }

  lemma TaggedFirst(isStderr: bool, payload: string, n: nat)
    ensures First(Tagged(isStderr, payload), n) == Tagged(isStderr, if |payload| > n then payload[..n] else payload)
  {
  }

  function Buffer(o: Output, isStderr: bool): string
  {
    if isStderr then o.stderr else o.stdout
  }

  /** One write keeps, of its payload, the first bytes that still fit. */
  lemma WriteKeepsFirst(o: Output, w: Write, which: bool)
    requires o.remaining >= 0
    ensures var next := WriteOne(o, w);
            var kept := First(Tagged(w.isStderr, w.payload), o.remaining);
            && next.remaining == o.remaining - |kept|
            && Buffer(next, which) == Buffer(o, which) + Stream(kept, which)
            && next.truncated == (o.truncated || o.remaining == 0 || |w.payload| > o.remaining)
  {
    TaggedFirst(w.isStderr, w.payload, o.remaining);
    var kept := if |w.payload| > o.remaining then w.payload[..o.remaining] else w.payload;
    StreamOfTagged(w.isStderr, kept, which);
    assert Buffer(o, which) + "" == Buffer(o, which);
  }

  /** Keeping the first bytes of two pieces one after the other. */
  lemma KeptInTwoSteps(head: seq<Byte>, tail: seq<Byte>, n: nat, which: bool)
    ensures |First(head, n)| <= n
    ensures var left := n - |First(head, n)|;
            && |First(head + tail, n)| == |First(head, n)| + |First(tail, left)|
            && Stream(First(head + tail, n), which) == Stream(First(head, n), which) + Stream(First(tail, left), which)
  {
    var left := n - |First(head, n)|;
    assert First(head + tail, n) == First(head, n) + First(tail, left);
    StreamAppend(First(head, n), First(tail, left), which);
  }

  lemma {:induction false} WriteAllKeepsFirst(o: Output, writes: seq<Write>, which: bool)
    requires o.remaining >= 0
    ensures WriteAll(o, writes).remaining == o.remaining - |First(Bytes(writes), o.remaining)|
    ensures Buffer(WriteAll(o, writes), which) == Buffer(o, which) + Stream(First(Bytes(writes), o.remaining), which)
    decreases |writes|
  {
    if writes == [] {
      assert Buffer(o, which) + "" == Buffer(o, which);
    } else {
      var next, head := WriteOne(o, writes[0]), Tagged(writes[0].isStderr, writes[0].payload);
      WriteKeepsFirst(o, writes[0], which);
      KeptInTwoSteps(head, Bytes(writes[1..]), o.remaining, which);
      WriteAllKeepsFirst(next, writes[1..], which);
      var left := o.remaining - |First(head, o.remaining)|;
      var now, later := First(head, o.remaining), First(Bytes(writes[1..]), left);
      Associate(Buffer(o, which), Stream(now, which), Stream(later, which));
    }
  }

  /** The shared budget. For any interleaving of writes to the two streams, together the buffers hold
      exactly the first max bytes of the interleaving, each byte in the buffer of its own stream, and the
      budget left plus the bytes kept is the budget given. */
  lemma BudgetKeepsTheFirstBytes(maxBytes: int, writes: seq<Write>)
    ensures var o := WriteAll(NewOutput(maxBytes), writes);
            var max := NewOutput(maxBytes).remaining;
            var kept := First(Bytes(writes), max);
            && o.stdout == Stream(kept, false) && o.stderr == Stream(kept, true)
            && o.remaining + |o.stdout| + |o.stderr| == max
            && |o.stdout| + |o.stderr| == if |Bytes(writes)| < max then |Bytes(writes)| else max
  {
    var start := NewOutput(maxBytes);
    WriteAllKeepsFirst(start, writes, false);
    WriteAllKeepsFirst(start, writes, true);
    var kept := First(Bytes(writes), start.remaining);
    StreamSizes(kept);
    assert "" + Stream(kept, false) == Stream(kept, false) && "" + Stream(kept, true) == Stream(kept, true);
  }

  lemma {:induction false} StreamSizes(bytes: seq<Byte>)
    ensures |Stream(bytes, false)| + |Stream(bytes, true)| == |bytes|
  {
    if bytes != [] { StreamSizes(bytes[1..]); }
  }

  /** Each buffer is a prefix of what was written to its stream. */
  lemma BuffersArePrefixes(maxBytes: int, writes: seq<Write>)
    ensures var o := WriteAll(NewOutput(maxBytes), writes);
            o.stdout <= Stream(Bytes(writes), false) && o.stderr <= Stream(Bytes(writes), true)
  {
    BudgetKeepsTheFirstBytes(maxBytes, writes);
    var all, max := Bytes(writes), NewOutput(maxBytes).remaining;
    var kept := First(all, max);
    assert all == kept + all[|kept|..];
    StreamAppend(kept, all[|kept|..], false);
    StreamAppend(kept, all[|kept|..], true);
  }

  /** When the flag is set: with non-empty writes exactly when more was written than the budget allows. In
      general an empty write after the budget is used up sets it too. */
  lemma {:induction false} TruncatedIff(o: Output, writes: seq<Write>)
    requires o.remaining >= 0 && !o.truncated
    ensures WriteAll(o, writes).truncated <==>
            |Bytes(writes)| > o.remaining
            || exists i :: 0 <= i < |writes| && writes[i].payload == "" && |Bytes(writes[..i])| == o.remaining
    decreases |writes|
  {
    if writes != [] {
      var w, next := writes[0], WriteOne(o, writes[0]);
      WriteKeepsFirst(o, w, false);
      if next.truncated {
        StaysTruncated(next, writes[1..]);
        if w.payload == "" {
          assert writes[..0] == [];
          assert |Bytes(writes[..0])| == o.remaining;
        }
      } else {
        TruncatedIff(next, writes[1..]);
        forall i | 0 <= i < |writes[1..]|
          ensures |Bytes(writes[..i + 1])| == |w.payload| + |Bytes(writes[1..][..i])|
        {
          assert writes[..i + 1][1..] == writes[1..][..i];
        }
        assert forall i :: 0 <= i < |writes[1..]| ==> writes[1..][i] == writes[i + 1];
        assert Bytes(writes[..0]) == [];
        if i :| 0 <= i < |writes| && writes[i].payload == "" && |Bytes(writes[..i])| == o.remaining {
          if i > 0 { assert writes[1..][i - 1].payload == ""; }
        }
      }
    }
  }

  lemma {:induction false} StaysTruncated(o: Output, writes: seq<Write>)
    requires o.remaining >= 0 && o.truncated
    ensures WriteAll(o, writes).truncated
    decreases |writes|
  {
    if writes != [] {
      WriteKeepsFirst(o, writes[0], false);
      StaysTruncated(WriteOne(o, writes[0]), writes[1..]);
    }
  }

  // ----- the writers

  class LimitedOutput {
    var remaining: int
    var stdout: string
    var stderr: string
    var truncated: bool

    ghost function View(): Output
      reads this
    {
      Output(remaining, stdout, stderr, truncated)
    }

    constructor (maxBytes: int)
      ensures View() == NewOutput(maxBytes)
    {
      remaining := if maxBytes <= 0 then DEFAULT_BYTES else maxBytes;
      stdout, stderr, truncated := "", "", false;
    }

    /** `limitedStreamWriter.Write`: it always claims to have written everything. */
    method WriteTo(isStderr: bool, payload: string) returns (written: int)
      modifies this
      ensures View() == WriteOne(old(View()), Write(isStderr, payload)) && written == |payload|
    {
      if remaining <= 0 {
        truncated := true;
        return |payload|;
      }
      var toWrite := payload;
      if |toWrite| > remaining {
        toWrite := toWrite[..remaining];
        truncated := true;
      }
      remaining := remaining - |toWrite|;
      if isStderr {
        stderr := stderr + toWrite;
      } else {
        stdout := stdout + toWrite;
      }
      written := |payload|;
    }
  }
}
