/**
 The byte streams behind a connection: a buffered reader and a writer.
 */
module Streams {
  import opened Bytes

  const LF: byte := 10

  /** Where the first line feed is; the length of `s` if there is none. */
  function LineEnd(s: seq<byte>): (p: nat)
    ensures p <= |s|
    ensures p < |s| ==> s[p] == LF
    ensures forall i :: 0 <= i < p ==> s[i] != LF
  {
    if s == [] || s[0] == LF then 0 else 1 + LineEnd(s[1..])
  }

  /** A buffered reader over the bytes that are still to come. */
  class Stream {
    var rest: seq<byte>

    constructor (bytes: seq<byte>)
      ensures rest == bytes
    {
      rest := bytes;
    }

    /** `read_until(b'\n')`: up to and including the line feed, or everything. */
    method ReadLine() returns (line: seq<byte>)
      modifies this
      ensures var n := if LineEnd(old(rest)) < |old(rest)| then LineEnd(old(rest)) + 1 else |old(rest)|;
              line == old(rest)[..n] && rest == old(rest)[n..]
    {
      var n := LineEnd(rest);
      if n < |rest| {
        n := n + 1;
      }
      line := rest[..n];
      rest := rest[n..];
    }

    method ReadExact(n: nat) returns (r: Option<seq<byte>>)
      modifies this
      ensures n <= |old(rest)| ==> r == Some(old(rest)[..n]) && rest == old(rest)[n..]
      ensures n > |old(rest)| ==> r == None && rest == []
    {
      if n > |rest| {
        rest := [];
        return None;
      }
      r := Some(rest[..n]);
      rest := rest[n..];
    }
  }

  /** What has been written so far. */
  class Sink {
    var bytes: seq<byte>

    constructor ()
      ensures bytes == []
    {
      bytes := [];
    }

    method WriteAll(more: seq<byte>)
      modifies this
      ensures bytes == old(bytes) + more
    {
      bytes := bytes + more;
    }
  }
}
