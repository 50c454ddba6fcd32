/** The bounded capture of the subprocess's recent stderr output. */
module StderrBuffer {
  import opened Bytes

  const CAP: nat := 8192

  /** The last `n` bytes of `s`, or all of it when it is shorter. */
  function Last(s: Text, n: nat): Text {
    if |s| <= n then s else s[|s| - n..]
  }

  /** Forgetting early costs nothing: bytes cut off once would be cut off by any
      later cut. */
  lemma LastOfLast(s: Text, t: Text, n: nat)
    ensures Last(Last(s, n) + t, n) == Last(s + t, n)
  {
    if |s| > n {
      var k := |s| - n;
      DropInside(s, t, k);
      assert (s + t)[|s + t| - n..] == (s + t)[k..][|t|..];
    }
  }

  class Buffer {
    var buf: Text

    constructor ()
      ensures buf == ""
    {
      buf := "";
    }

    /** Each element of `chunks` is what one Read call delivered, at most a
        scratch buffer full; the stream ends after the last one. */
    method Drain(chunks: seq<Text>)
      requires |buf| <= CAP
      modifies this
      ensures buf == Last(old(buf) + Concat(chunks), CAP)
    {
      assert old(buf) + Concat([]) == old(buf);
      for i := 0 to |chunks|
        invariant buf == Last(old(buf) + Concat(chunks[..i]), CAP)
      {
        ghost var seen := old(buf) + Concat(chunks[..i]);
        assert chunks[..i + 1][..i] == chunks[..i];
        assert old(buf) + Concat(chunks[..i + 1]) == seen + chunks[i];
        LastOfLast(seen, chunks[i], CAP);
        if |chunks[i]| > 0 {
          buf := buf + chunks[i];
          if |buf| > CAP {
            buf := buf[|buf| - CAP..];
          }
        } else {
          assert seen + chunks[i] == seen;
        }
      }
      assert chunks[..|chunks|] == chunks;
    }
  }

  /** However the stream is cut into reads, the buffer ends up with its last
      min(total, 8192) bytes. */
  method Capture(chunks: seq<Text>) returns (captured: Text)
    ensures captured == Last(Concat(chunks), CAP)
    ensures |captured| == if |Concat(chunks)| < 8192 then |Concat(chunks)| else 8192
    ensures exists forgotten: Text :: Concat(chunks) == forgotten + captured
  {
    var b := new Buffer();
    b.Drain(chunks);
    captured := b.buf;
    assert "" + Concat(chunks) == Concat(chunks);
    ghost var all := Concat(chunks);
    assert all == all[..|all| - |captured|] + captured;
  }
}
