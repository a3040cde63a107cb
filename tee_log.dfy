/** The `TeeStringLogger` log sink: every chunk goes to standard output and
    into an in-memory StringIO buffer. */
module TeeLog {

  /** The sentinel that `close` writes. */
  const LogClosed: string := "--- LOG CLOSED"

  /** The text of a sequence of chunks, joined in order. */
  function Concat(chunks: seq<string>): string {
    if chunks == [] then "" else chunks[0] + Concat(chunks[1..])
  }

  /** Writing one more chunk extends the joined text by exactly that chunk. */
  lemma {:induction false} ConcatAppend(chunks: seq<string>, m: string)
    ensures Concat(chunks + [m]) == Concat(chunks) + m
  {
    if chunks == [] {
      assert [] + [m] == [m];
      assert Concat([m]) == m + Concat([]);
    } else {
      assert (chunks + [m])[1..] == chunks[1..] + [m];
      ConcatAppend(chunks[1..], m);
    }
  }

  /** Joining two runs of writes is joining each and putting them end to end. */
  lemma {:induction false} ConcatSplit(a: seq<string>, b: seq<string>)
    ensures Concat(a + b) == Concat(a) + Concat(b)
  {
    if a == [] {
      assert [] + b == b;
    } else {
      assert (a + b)[1..] == a[1..] + b;
      ConcatSplit(a[1..], b);
    }
  }

  /** What the buffer holds after the first `i` writes is a prefix of what it
      holds after all of them: text, once buffered, is never changed. */
  lemma ConcatPrefix(chunks: seq<string>, i: nat)
    requires i <= |chunks|
    ensures Concat(chunks[..i]) <= Concat(chunks)
    ensures Concat(chunks) == Concat(chunks[..i]) + Concat(chunks[i..])
  {
    assert chunks == chunks[..i] + chunks[i..];
    ConcatSplit(chunks[..i], chunks[i..]);
  }

  class TeeStringLogger {
    /** The chunks this sink has forwarded to standard output, in write order. */
    var stdout: seq<string>
    /** The text of the in-memory StringIO. */
    var buffer: string

    /** Both destinations have received the same chunks in the same order. */
    ghost predicate Valid()
      reads this
    {
      buffer == Concat(stdout)
    }

    constructor ()
      ensures Valid()
      ensures stdout == [] && buffer == ""
    {
      stdout := [];
      buffer := "";
    }

    /** Forward the chunk to standard output, then append it to the buffer. */
    method Write(message: string)
      requires Valid()
      modifies this
      ensures Valid()
      ensures stdout == old(stdout) + [message]
      ensures buffer == old(buffer) + message
    {
      ConcatAppend(stdout, message);
      stdout := stdout + [message];
      buffer := buffer + message;
    }

    /** Closing is one more write, of the sentinel. */
    method Close()
      requires Valid()
      modifies this
      ensures Valid()
      ensures stdout == old(stdout) + [LogClosed]
      ensures buffer == old(buffer) + LogClosed
    {
      Write(LogClosed);
    }

    /** The buffered text so far: every chunk written, in order. */
    function Results(): (r: string)
      reads this
      requires Valid()
      ensures r == Concat(stdout)
    {
      buffer
    }
  }
}
