/** Buffers that keep only the end of what they were given. */
module BoundedTail {

  // Bytes of output that a task keeps.
  const MAX_OUTPUT_BYTES := 50 * 1024

  function Last<T>(s: seq<T>, n: nat): seq<T> {
    if |s| <= n then s else s[|s| - n..]
  }

  lemma LastOfLast<T>(a: seq<T>, b: seq<T>, n: nat)
    ensures Last(Last(a, n) + b, n) == Last(a + b, n)
  {
  }

  function Joined<T>(chunks: seq<seq<T>>): seq<T> {
    if chunks == [] then [] else Joined(chunks[..|chunks| - 1]) + chunks[|chunks| - 1]
  }

  datatype Tail<T> = Tail(output: seq<T>, outputBytes: nat, truncated: bool)

  function Appended<T>(t: Tail<T>, chunk: seq<T>): Tail<T> {
    var joined := t.output + chunk;
    if |joined| > MAX_OUTPUT_BYTES
    then Tail(joined[|joined| - MAX_OUTPUT_BYTES..], t.outputBytes + |chunk|, true)
    else Tail(joined, t.outputBytes + |chunk|, t.truncated)
  }

  function AppendedAll<T>(chunks: seq<seq<T>>): Tail<T> {
    if chunks == [] then Tail([], 0, false)
    else Appended(AppendedAll(chunks[..|chunks| - 1]), chunks[|chunks| - 1])
  }

  // The buffer depends on what was written, not on how it was cut into chunks.
  lemma {:induction false} TailIgnoresChunking<T>(chunks: seq<seq<T>>)
    ensures var all := Joined(chunks);
            AppendedAll(chunks) == Tail(Last(all, 51200), |all|, |all| > 51200)
  {
    if chunks != [] {
      var n := |chunks| - 1;
      TailIgnoresChunking(chunks[..n]);
      LastOfLast(Joined(chunks[..n]), chunks[n], MAX_OUTPUT_BYTES);
    }
  }

  class OutputBuffer<T> {
    var output: seq<T>
    var outputBytes: nat
    var truncated: bool

    ghost function View(): Tail<T>
      reads this
    {
      Tail(output, outputBytes, truncated)
    }

    constructor ()
      ensures View() == AppendedAll<T>([])
    {
      output, outputBytes, truncated := [], 0, false;
    }

    method AppendOutput(chunk: seq<T>)
      modifies this
      ensures View() == Appended(old(View()), chunk)
    {
      outputBytes := outputBytes + |chunk|;
      var joined := output + chunk;
      if |joined| > MAX_OUTPUT_BYTES {
        output := joined[|joined| - MAX_OUTPUT_BYTES..];
        truncated := true;
        return;
      }
      output := joined;
    }
  }

  // The last lines of a child's error stream. The oldest line leaves when it is full.
  class LineRing {
    const capacity: nat
    var lines: seq<string>
    ghost var history: seq<string>

    ghost predicate Valid()
      reads this
    {
      capacity > 0 && lines == Last(history, capacity)
    }

    constructor (capacity: nat)
      requires capacity > 0
      ensures Valid() && history == [] && this.capacity == capacity
    {
      this.capacity, lines, history := capacity, [], [];
    }

    method Push(line: string)
      requires Valid()
      modifies this
      ensures Valid() && history == old(history) + [line]
    {
      if |lines| >= capacity {
        lines := lines[1..];
      }
      lines := lines + [line];
      history := history + [line];
    }
  }
}
