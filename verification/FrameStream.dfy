/** The two ends of the subprocess pipes: the buffered reader that `readFrame`
    and `readLoop` consume, and the writer that `writeMessage` fills. */
module FrameStream {
  import opened Bytes
  import opened Framing

  lemma Regrouped(a: seq<Text>, b: Text, c: seq<Text>)
    ensures a + ([b] + c) == a + [b] + c
  {
  }

  /** bufio.Reader over the bytes the peer sends before closing the pipe. */
  class Reader {
    const data: Text
    var pos: nat

    ghost predicate Valid()
      reads this
    {
      pos <= |data|
    }

    function Remaining(): Text
      requires Valid()
      reads this
    {
      data[pos..]
    }

    constructor (data: Text)
      ensures Valid() && Remaining() == data
    {
      this.data, pos := data, 0;
    }

    /** The next line including its line feed; without a line feed ahead,
        everything left is consumed and the call fails. */
    method ReadLine() returns (line: Text, ok: bool)
      requires Valid()
      modifies this
      ensures Valid()
      ensures old(Remaining()) == line + Remaining()
      ensures ok == ('\n' in old(Remaining()))
      ensures ok ==> line == old(Remaining())[..IndexOf(old(Remaining()), '\n') + 1]
      ensures !ok ==> Remaining() == ""
    {
      var n := IndexOf(Remaining(), '\n');
      ok := n < |Remaining()|;
      var stop := if ok then pos + n + 1 else |data|;
      line := data[pos..stop];
      pos := stop;
    }

    /** io.ReadFull: all `n` bytes or a failure. */
    method ReadFull(n: nat) returns (buf: Text, ok: bool)
      requires Valid()
      modifies this
      ensures Valid()
      ensures old(Remaining()) == buf + Remaining()
      ensures ok == (n <= |old(Remaining())|)
      ensures |buf| == if ok then n else |old(Remaining())|
    {
      ok := n <= |Remaining()|;
      var stop := if ok then pos + n else |data|;
      buf := data[pos..stop];
      pos := stop;
    }

    method ReadFrame() returns (r: ReadResult)
      requires Valid()
      modifies this
      ensures Valid()
      ensures r == Framing.ReadFrame(old(Remaining()))
      ensures r.Frame? ==> Remaining() == r.rest
    {
      var contentLength := -1;
      while true
        invariant Valid()
        invariant ReadHeaders(Remaining(), contentLength) == ReadHeaders(old(Remaining()), -1)
        decreases |Remaining()|
      {
        ghost var before := Remaining();
        var line, ok := ReadLine();
        assert IndexOf(before, '\n') < |before| ==> before[IndexOf(before, '\n')] in before;
        if !ok {
          return Failed(UnexpectedEOF);
        }
        SplitAt(line, Remaining());
        var trimmed := TrimLineEnd(line);
        if trimmed == "" {
          break;
        }
        var applied := ApplyHeader(trimmed, contentLength);
        if applied == None {
          return Failed(BadContentLength);
        }
        contentLength := applied.value;
      }
      if contentLength < 0 {
        return Failed(MissingContentLength);
      }
      ghost var body := Remaining();
      var buf, ok := ReadFull(contentLength);
      SplitAt(buf, Remaining());
      if !ok {
        return Failed(UnexpectedEOF);
      }
      return Frame(buf, Remaining());
    }

    /** The skeleton of `readLoop`: frames are taken until a read fails. */
    method ReadLoop() returns (bodies: seq<Text>)
      requires Valid()
      modifies this
      ensures Valid()
      ensures bodies == ReadAll(old(Remaining())).0
    {
      bodies := [];
      while true
        invariant Valid()
        invariant ReadAll(old(Remaining())).0 == bodies + ReadAll(Remaining()).0
        decreases |Remaining()|
      {
        var r := ReadFrame();
        if r.Failed? {
          return;
        }
        Regrouped(bodies, r.body, ReadAll(r.rest).0);
        bodies := bodies + [r.body];
      }
    }
  }

  /** How much of `n` bytes a pipe takes that has room for so many, or never fails. */
  function Fit(room: Option<nat>, n: nat): nat {
    if room.Some? && room.value < n then room.value else n
  }

  function RoomAfter(room: Option<nat>, n: nat): Option<nat> {
    if room.Some? then Some(room.value - Fit(room, n)) else None
  }

  /** The stdin pipe of the subprocess; a write that finds too little room is cut
      short and fails. */
  class Writer {
    var out: Text
    var room: Option<nat>

    constructor (room: Option<nat>)
      ensures out == "" && this.room == room
    {
      this.out, this.room := "", room;
    }

    method Write(data: Text) returns (ok: bool)
      modifies this
      ensures out == old(out) + data[..Fit(old(room), |data|)] && room == RoomAfter(old(room), |data|)
      ensures ok <==> Fit(old(room), |data|) == |data|
    {
      var n := Fit(room, |data|);
      out := out + data[..n];
      room := RoomAfter(room, |data|);
      ok := n == |data|;
    }

    /** Header and body go out as two separate writes, the second only after the
        first has succeeded: the pipe gets the frame as far as it goes. */
    method WriteMessage(body: Text) returns (ok: bool)
      modifies this
      ensures var frame := FrameOf(body);
              && out == old(out) + frame[..Fit(old(room), |frame|)] && room == RoomAfter(old(room), |frame|)
              && (ok <==> Fit(old(room), |frame|) == |frame|)
    {
      FitTwice(room, HeaderOf(body), body);
      ok := Write(HeaderOf(body));
      if !ok {
        return;
      }
      ok := Write(body);
    }
  }

  lemma FitTwice(room: Option<nat>, a: Text, b: Text)
    ensures Fit(room, |a|) < |a| ==> (a + b)[..Fit(room, |a + b|)] == a[..Fit(room, |a|)]
    ensures Fit(room, |a|) == |a| ==>
              (a + b)[..Fit(room, |a + b|)] == a[..Fit(room, |a|)] + b[..Fit(RoomAfter(room, |a|), |b|)]
  {
  }

  /** The messages whose frames lie whole within the first `n` bytes. */
  ghost predicate LongestWithin(received: seq<Text>, bodies: seq<Text>, n: nat) {
    && received <= bodies && |FramesOf(received)| <= n
    && (received == bodies || n < |FramesOf(bodies[..|received| + 1])|)
  }

  lemma LongestOfFront(received: seq<Text>, bodies: seq<Text>, n: nat)
    requires bodies != [] && LongestWithin(received, bodies[..|bodies| - 1], n) && n < |FramesOf(bodies)|
    ensures LongestWithin(received, bodies, n)
  {
    var front := bodies[..|bodies| - 1];
    if received == front {
      assert bodies[..|received| + 1] == bodies;
    } else {
      assert front[..|received| + 1] == bodies[..|received| + 1];
    }
  }

  /** However the stream of frames is cut off, exactly the messages that fit are read
      from it. */
  lemma {:induction false} ReadCut(bodies: seq<Text>, n: nat)
    requires n <= |FramesOf(bodies)|
    ensures LongestWithin(ReadAll(FramesOf(bodies)[..n]).0, bodies, n)
  {
    if n == |FramesOf(bodies)| {
      ReadUncut(bodies);
    } else {
      var front := bodies[..|bodies| - 1];
      if n <= |FramesOf(front)| {
        ReadCut(front, n);
        DropInside(FramesOf(front), FrameOf(bodies[|bodies| - 1]), n);
      } else {
        ReadCutLast(front, bodies[|bodies| - 1], n - |FramesOf(front)|);
        FramesCut(bodies, n);
      }
      LongestOfFront(ReadAll(FramesOf(bodies)[..n]).0, bodies, n);
    }
  }

  lemma ReadUncut(bodies: seq<Text>)
    ensures ReadAll(FramesOf(bodies)[..|FramesOf(bodies)|]).0 == bodies
  {
    ReadAllFrames(bodies, "");
    assert FramesOf(bodies)[..|FramesOf(bodies)|] == FramesOf(bodies) + "";
  }

  lemma ReadCutLast(front: seq<Text>, last: Text, cut: nat)
    requires cut < |FrameOf(last)|
    ensures ReadAll(FramesOf(front) + FrameOf(last)[..cut]).0 == front
  {
    ReadPartialFrame(last, cut);
    ReadAllFrames(front, FrameOf(last)[..cut]);
  }

  lemma FramesCut(bodies: seq<Text>, n: nat)
    requires bodies != [] && |FramesOf(bodies[..|bodies| - 1])| <= n <= |FramesOf(bodies)|
    ensures var f := FramesOf(bodies[..|bodies| - 1]);
            FramesOf(bodies)[..n] == f + FrameOf(bodies[|bodies| - 1])[..n - |f|]
  {
  }

  lemma FitMore(room: Option<nat>, bodies: seq<Text>, i: nat)
    requires i < |bodies|
    ensures var a, b, c := FramesOf(bodies[..i]), FrameOf(bodies[i]), FramesOf(bodies[..i + 1]);
            && a[..Fit(room, |a|)] + b[..Fit(RoomAfter(room, |a|), |b|)] == c[..Fit(room, |c|)]
            && RoomAfter(RoomAfter(room, |a|), |b|) == RoomAfter(room, |c|)
  {
    var a, b := FramesOf(bodies[..i]), FrameOf(bodies[i]);
    assert bodies[..i + 1][..i] == bodies[..i];
    FitTwice(room, a, b);
    assert Fit(room, |a|) < |a| ==> b[..Fit(RoomAfter(room, |a|), |b|)] == "";
  }

  /** Whatever is written message by message is read back message by message, up to
      the first write that fails. */
  method Pipe(bodies: seq<Text>, room: Option<nat>) returns (received: seq<Text>)
    ensures LongestWithin(received, bodies, Fit(room, |FramesOf(bodies)|))
    ensures room == None ==> received == bodies
  {
    var w := new Writer(room);
    for i := 0 to |bodies|
      invariant var frames := FramesOf(bodies[..i]);
                w.out == frames[..Fit(room, |frames|)] && w.room == RoomAfter(room, |frames|)
    {
      FitMore(room, bodies, i);
      var _ := w.WriteMessage(bodies[i]);
    }
    assert bodies[..|bodies|] == bodies;
    var r := new Reader(w.out);
    received := r.ReadLoop();
    ReadCut(bodies, Fit(room, |FramesOf(bodies)|));
    if room == None && received != bodies {
      LongestIsAll(received, bodies);
    }
  }

  lemma LongestIsAll(received: seq<Text>, bodies: seq<Text>)
    requires LongestWithin(received, bodies, |FramesOf(bodies)|)
    ensures received == bodies
  {
    if received != bodies {
      FramesGrow(bodies, |received| + 1);
    }
  }

  lemma {:induction false} FramesGrow(bodies: seq<Text>, k: nat)
    requires k <= |bodies|
    ensures |FramesOf(bodies[..k])| <= |FramesOf(bodies)|
  {
    if k == |bodies| {
      assert bodies[..k] == bodies;
    } else {
      var front := bodies[..|bodies| - 1];
      FramesGrow(front, k);
      assert front[..k] == bodies[..k];
    }
  }
}
