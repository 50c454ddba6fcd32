/** Content-Length framing: the header and body format of the base protocol of
    the Language Server Protocol 3.17. A read consumes a prefix of the byte
    stream and leaves the rest; the end of the sequence is end of file. */
module Framing {
  import opened Bytes
  import opened Decimals

  datatype ReadError = UnexpectedEOF | BadContentLength | MissingContentLength

  datatype ReadResult = Frame(body: Text, rest: Text) | Failed(error: ReadError)

  datatype HeaderResult = Headers(length: int, rest: Text) | HeaderFailed(error: ReadError)

  // ---------------------------------------------------------------- trimming

  /** strings.TrimRight(line, "\r\n"). */
  function TrimLineEnd(s: Text): (r: Text)
    ensures r <= s
  {
    if s != "" && (s[|s| - 1] == '\r' || s[|s| - 1] == '\n') then TrimLineEnd(s[..|s| - 1]) else s
  }

  predicate IsSpace(c: Byte) {
    c == ' ' || c == '\t' || c == '\n' || c as int == 11 || c as int == 12 || c == '\r'
  }

  function TrimLeft(s: Text): (r: Text)
    ensures |r| <= |s|
  {
    if s != "" && IsSpace(s[0]) then TrimLeft(s[1..]) else s
  }

  function TrimRight(s: Text): (r: Text)
    ensures r <= s
  {
    if s != "" && IsSpace(s[|s| - 1]) then TrimRight(s[..|s| - 1]) else s
  }

  /** strings.TrimSpace. */
  function TrimSpace(s: Text): Text {
    TrimRight(TrimLeft(s))
  }

  /** Blank, tab, line feed, vertical tab, form feed, carriage return. */
  const SPACES: Text := [' ', '\t', '\n', 11 as char, 12 as char, '\r']

  predicate AllSpaces(s: Text) {
    forall i | 0 <= i < |s| :: s[i] in SPACES
  }

  lemma SpaceListed(c: Byte)
    ensures IsSpace(c) <==> c in SPACES
  {
    if IsSpace(c) {
      assert exists i :: 0 <= i < 6 && SPACES[i] == c by {
        assert SPACES[0] == ' ' && SPACES[1] == '\t' && SPACES[2] == '\n' && SPACES[5] == '\r';
        assert SPACES[3] as int == 11 && SPACES[4] as int == 12;
      }
    }
  }

  lemma {:induction false} TrimLeftDrops(s: Text) returns (lead: Text)
    ensures AllSpaces(lead) && s == lead + TrimLeft(s) && (TrimLeft(s) != "" ==> TrimLeft(s)[0] !in SPACES)
  {
    if s != "" {
      SpaceListed(s[0]);
    }
    if s != "" && IsSpace(s[0]) {
      var rest := TrimLeftDrops(s[1..]);
      lead := [s[0]] + rest;
    } else {
      lead := "";
    }
  }

  lemma {:induction false} TrimRightDrops(s: Text) returns (trail: Text)
    ensures AllSpaces(trail) && s == TrimRight(s) + trail
    ensures TrimRight(s) != "" ==> TrimRight(s)[|TrimRight(s)| - 1] !in SPACES && TrimRight(s)[0] == s[0]
  {
    if s != "" {
      SpaceListed(s[|s| - 1]);
    }
    if s != "" && IsSpace(s[|s| - 1]) {
      var rest := TrimRightDrops(s[..|s| - 1]);
      trail := rest + [s[|s| - 1]];
    } else {
      trail := "";
    }
  }

  /** Trimming takes away spaces at both ends, all of them, and nothing else. */
  lemma TrimSpaceDrops(s: Text) returns (lead: Text, trail: Text)
    ensures AllSpaces(lead) && AllSpaces(trail) && s == lead + TrimSpace(s) + trail
    ensures var t := TrimSpace(s); t != "" ==> t[0] !in SPACES && t[|t| - 1] !in SPACES
  {
    lead := TrimLeftDrops(s);
    trail := TrimRightDrops(TrimLeft(s));
  }

  // ----------------------------------------------------------------- reading

  const CONTENT_LENGTH: Text := "Content-Length"

  /** The effect of one non-blank header line on the length read so far. */
  function ApplyHeader(line: Text, length: int): Option<int> {
    var colon := IndexOf(line, ':');
    if colon == |line| then Some(length)
    else if EqualFold(TrimSpace(line[..colon]), CONTENT_LENGTH) then Atoi(TrimSpace(line[colon + 1..]))
    else Some(length)
  }

  function ReadHeaders(s: Text, length: int): (r: HeaderResult)
    ensures r.Headers? ==> |r.rest| < |s|
    decreases |s|, 0
  {
    var n := IndexOf(s, '\n');
    if n == |s| then HeaderFailed(UnexpectedEOF)
    else ReadAfter(TrimLineEnd(s[..n + 1]), s[n + 1..], length)
  }

  /** Reading on after one line, trimmed. */
  function ReadAfter(line: Text, rest: Text, length: int): (r: HeaderResult)
    ensures r.Headers? ==> |r.rest| <= |rest|
    decreases |rest|, 1
  {
    if line == "" then Headers(length, rest)
    else
      match ApplyHeader(line, length)
      case None => HeaderFailed(BadContentLength)
      case Some(l) => ReadHeaders(rest, l)
  }

  function TakeBody(length: int, s: Text): ReadResult {
    if length < 0 then Failed(MissingContentLength)
    else if length > |s| then Failed(UnexpectedEOF)
    else Frame(s[..length], s[length..])
  }

  function ReadFrame(s: Text): (r: ReadResult)
    ensures r.Frame? ==> |r.rest| < |s|
  {
    match ReadHeaders(s, -1)
    case HeaderFailed(e) => Failed(e)
    case Headers(length, rest) => TakeBody(length, rest)
  }

  /** Iterated reading: every complete frame, then what is left over. */
  function ReadAll(s: Text): (seq<Text>, Text)
    decreases |s|
  {
    match ReadFrame(s)
    case Failed(_) => ([], s)
    case Frame(body, rest) => var (bodies, left) := ReadAll(rest); ([body] + bodies, left)
  }

  // ----------------------------------------------------------------- writing

  function HeaderOf(body: Text): Text {
    "Content-Length: " + Decimal(|body|) + "\r\n\r\n"
  }

  function FrameOf(body: Text): Text {
    HeaderOf(body) + body
  }

  function FramesOf(bodies: seq<Text>): Text {
    if bodies == [] then "" else FramesOf(bodies[..|bodies| - 1]) + FrameOf(bodies[|bodies| - 1])
  }

  // ----------------------------------------------- header blocks in general

  /** White space inside a line. */
  predicate Blank(pad: Text) {
    forall i | 0 <= i < |pad| :: IsSpace(pad[i]) && pad[i] != '\n'
  }

  /** A header line as a peer may spell it: a Content-Length line in any case and
      padding with any text for its value, or a line the reader has no use for. */
  datatype HeaderLine =
    | Length(lead: Text, key: Text, mid: Text, value: Text)
    | Other(text: Text)
  {
    predicate Valid() {
      && OneLine(Spelling())
      && match this
         case Length(lead, key, mid, _) => Blank(lead) && Blank(mid) && EqualFold(key, CONTENT_LENGTH)
         case Other(text) =>
           var colon := IndexOf(text, ':');
           colon < |text| ==> !EqualFold(TrimSpace(text[..colon]), CONTENT_LENGTH)
    }

    function Spelling(): Text {
      match this
      case Length(lead, key, mid, value) => lead + key + mid + ":" + value
      case Other(text) => text
    }

    /** The length in force after this line; none when it is not a number. */
    function Declares(length: int): Option<int> {
      match this
      case Length(_, _, _, value) => Atoi(TrimSpace(value))
      case Other(_) => Some(length)
    }
  }

  /** Not blank, without a line feed, and not ending in part of a line ending. */
  predicate OneLine(s: Text) {
    s != "" && s[|s| - 1] != '\r' && forall i | 0 <= i < |s| :: s[i] != '\n'
  }

  /** A line ending: any number of carriage returns, then a line feed. */
  function LineEnd(crs: nat): Text {
    seq(crs, _ => '\r') + "\n"
  }

  function Render(lines: seq<(HeaderLine, nat)>): Text {
    if lines == [] then "" else lines[0].0.Spelling() + LineEnd(lines[0].1) + Render(lines[1..])
  }

  /** The last Content-Length line decides, and none of them may be malformed. */
  function Declared(lines: seq<(HeaderLine, nat)>, length: int): Option<int> {
    if lines == [] then Some(length)
    else
      match lines[0].0.Declares(length)
      case None => None
      case Some(l) => Declared(lines[1..], l)
  }

  lemma {:induction false} TrimLineEndLine(text: Text, crs: nat)
    requires text == "" || (text[|text| - 1] != '\r' && text[|text| - 1] != '\n')
    ensures TrimLineEnd(text + LineEnd(crs)) == text
  {
    var line := text + LineEnd(crs);
    assert line[..|line| - 1] == text + seq(crs, _ => '\r');
    TrimReturns(text, crs);
  }

  lemma {:induction false} TrimReturns(text: Text, crs: nat)
    requires text == "" || (text[|text| - 1] != '\r' && text[|text| - 1] != '\n')
    ensures TrimLineEnd(text + seq(crs, _ => '\r')) == text
  {
    var line: Text := text + seq(crs, _ => '\r');
    if crs == 0 {
      assert line == text;
    } else {
      assert line[..|line| - 1] == text + seq(crs - 1, _ => '\r');
      TrimReturns(text, crs - 1);
    }
  }

  lemma {:induction false} TrimLeftPad(pad: Text, s: Text)
    requires Blank(pad) && (s == "" || !IsSpace(s[0]))
    ensures TrimLeft(pad + s) == s
  {
    if pad == "" {
      assert pad + s == s;
    } else {
      assert (pad + s)[1..] == pad[1..] + s;
      TrimLeftPad(pad[1..], s);
    }
  }

  lemma {:induction false} TrimRightPad(s: Text, pad: Text)
    requires Blank(pad) && (s == "" || !IsSpace(s[|s| - 1]))
    ensures TrimRight(s + pad) == s
  {
    if pad == "" {
      assert s + pad == s;
    } else {
      assert (s + pad)[..|s + pad| - 1] == s + pad[..|pad| - 1];
      TrimRightPad(s, pad[..|pad| - 1]);
    }
  }

  lemma TrimSpacePad(lead: Text, s: Text, trail: Text)
    requires Blank(lead) && Blank(trail) && s != "" && !IsSpace(s[0]) && !IsSpace(s[|s| - 1])
    ensures TrimSpace(lead + s + trail) == s
  {
    assert lead + s + trail == lead + (s + trail);
    TrimLeftPad(lead, s + trail);
    TrimRightPad(s, trail);
  }

  /** No byte of the key, in either case, is a separator. */
  lemma KeyBytes(key: Text, i: nat)
    requires EqualFold(key, CONTENT_LENGTH) && i < |key|
    ensures !IsSpace(key[i]) && key[i] != ':'
  {
  }

  lemma ApplyKeyValue(front: Text, value: Text, length: int)
    requires forall i | 0 <= i < |front| :: front[i] != ':'
    ensures ApplyHeader(front + ":" + value, length)
         == if EqualFold(TrimSpace(front), CONTENT_LENGTH) then Atoi(TrimSpace(value)) else Some(length)
  {
    var line := front + ":" + value;
    IndexOfAt(line, ':', |front|);
    assert line[..|front|] == front;
    assert line[|front| + 1..] == value;
  }

  lemma KeyPart(lead: Text, key: Text, mid: Text)
    requires Blank(lead) && Blank(mid) && EqualFold(key, CONTENT_LENGTH)
    ensures forall i | 0 <= i < |lead + key + mid| :: (lead + key + mid)[i] != ':'
    ensures TrimSpace(lead + key + mid) == key
  {
    forall i | 0 <= i < |key| ensures !IsSpace(key[i]) && key[i] != ':' {
      KeyBytes(key, i);
    }
    TrimSpacePad(lead, key, mid);
  }

  /** A number with blanks around it is read as that number. */
  lemma PaddedNumber(pad: Text, n: nat, trail: Text)
    requires Blank(pad) && Blank(trail)
    ensures Atoi(TrimSpace(pad + Decimal(n) + trail)) == Some(n)
  {
    var digits := Decimal(n);
    assert IsDigit(digits[0]) && IsDigit(digits[|digits| - 1]);
    TrimSpacePad(pad, digits, trail);
    AtoiDecimal(n);
  }

  lemma {:induction false} TrimLeftIs(s: Text) returns (lead: Text)
    requires forall i | 0 <= i < |s| :: s[i] != '\n'
    ensures Blank(lead) && s == lead + TrimLeft(s)
  {
    if s != "" && IsSpace(s[0]) {
      var rest := TrimLeftIs(s[1..]);
      lead := [s[0]] + rest;
    } else {
      lead := "";
    }
  }

  lemma {:induction false} TrimRightIs(s: Text) returns (trail: Text)
    requires forall i | 0 <= i < |s| :: s[i] != '\n'
    ensures Blank(trail) && s == TrimRight(s) + trail
  {
    if s != "" && IsSpace(s[|s| - 1]) {
      var rest := TrimRightIs(s[..|s| - 1]);
      trail := rest + [s[|s| - 1]];
    } else {
      trail := "";
    }
  }

  lemma TrimSpaceIs(s: Text) returns (lead: Text, trail: Text)
    requires forall i | 0 <= i < |s| :: s[i] != '\n'
    ensures Blank(lead) && Blank(trail) && s == lead + TrimSpace(s) + trail
  {
    lead := TrimLeftIs(s);
    assert forall i | 0 <= i < |TrimLeft(s)| :: TrimLeft(s)[i] == s[|lead| + i];
    trail := TrimRightIs(TrimLeft(s));
  }

  /** Every line a peer can send is one of these header lines. */
  lemma EveryLine(text: Text) returns (h: HeaderLine)
    requires OneLine(text)
    ensures h.Valid() && h.Spelling() == text
  {
    var colon := IndexOf(text, ':');
    h := Other(text);
    if colon < |text| && EqualFold(TrimSpace(text[..colon]), CONTENT_LENGTH) {
      var lead, mid := TrimSpaceIs(text[..colon]);
      var key := TrimSpace(text[..colon]);
      assert lead + key + mid + ":" + text[colon + 1..] == text;
      h := Length(lead, key, mid, text[colon + 1..]);
    }
  }

  lemma ApplyLine(h: HeaderLine, length: int)
    requires h.Valid()
    ensures ApplyHeader(h.Spelling(), length) == h.Declares(length)
  {
    if h.Length? {
      KeyPart(h.lead, h.key, h.mid);
      ApplyKeyValue(h.lead + h.key + h.mid, h.value, length);
    }
  }

  /** One rendered line is read as one line. */
  lemma ReadOneHeader(h: HeaderLine, crs: nat, s: Text, length: int)
    requires h.Valid()
    ensures ReadHeaders(h.Spelling() + LineEnd(crs) + s, length)
         == match h.Declares(length) case None => HeaderFailed(BadContentLength) case Some(l) => ReadHeaders(s, l)
  {
    ApplyLine(h, length);
    OneLineRead(h.Spelling(), crs, s, length);
  }

  lemma OneLineRead(text: Text, crs: nat, s: Text, length: int)
    requires OneLine(text)
    ensures ReadHeaders(text + LineEnd(crs) + s, length) == ReadAfter(text, s, length)
  {
    var line := text + LineEnd(crs);
    LineFeedAt(text, crs, s);
    SplitAt(line, s);
    TrimLineEndLine(text, crs);
    LineCut(line + s, |line|, line, s, length);
  }

  lemma LineFeedAt(text: Text, crs: nat, s: Text)
    requires forall i | 0 <= i < |text| :: text[i] != '\n'
    ensures IndexOf(text + LineEnd(crs) + s, '\n') == |text + LineEnd(crs)| - 1
  {
    IndexOfAt(text + LineEnd(crs) + s, '\n', |text + LineEnd(crs)| - 1);
  }

  lemma {:induction false} ReadRendered(lines: seq<(HeaderLine, nat)>, s: Text, length: int)
    requires forall i | 0 <= i < |lines| :: lines[i].0.Valid()
    ensures ReadHeaders(Render(lines) + s, length)
         == match Declared(lines, length) case None => HeaderFailed(BadContentLength) case Some(n) => ReadHeaders(s, n)
  {
    if lines == [] {
      assert Render(lines) + s == s;
    } else {
      var h, rest := lines[0].0, Render(lines[1..]) + s;
      assert Render(lines) + s == h.Spelling() + LineEnd(lines[0].1) + rest;
      ReadOneHeader(h, lines[0].1, rest, length);
      if h.Declares(length).Some? {
        ReadRendered(lines[1..], s, h.Declares(length).value);
      }
    }
  }

  lemma ReadBlankLine(crs: nat, tail: Text, length: int)
    ensures ReadHeaders(LineEnd(crs) + tail, length) == Headers(length, tail)
  {
    var blank := LineEnd(crs);
    TrimLineEndLine("", crs);
    assert "" + blank == blank;
    IndexOfAt(blank + tail, '\n', crs);
    SplitAt(blank, tail);
  }

  /** The outcome of a read whose headers declare a length, or a malformed one. */
  function Outcome(declared: Option<int>, tail: Text): ReadResult {
    match declared
    case None => Failed(BadContentLength)
    case Some(n) => TakeBody(n, tail)
  }

  lemma ReadBlock(lines: seq<(HeaderLine, nat)>, crs: nat, tail: Text)
    requires forall i | 0 <= i < |lines| :: lines[i].0.Valid()
    ensures ReadFrame(Render(lines) + LineEnd(crs) + tail) == Outcome(Declared(lines, -1), tail)
  {
    var rest := LineEnd(crs) + tail;
    assert Render(lines) + LineEnd(crs) + tail == Render(lines) + rest;
    ReadRendered(lines, rest, -1);
    if Declared(lines, -1).Some? {
      ReadBlankLine(crs, tail, Declared(lines, -1).value);
    }
  }

  /** What the reader makes of every header block: unknown headers, the case of
      the key, padding and the spelling of line ends are immaterial; a malformed
      length fails the read; otherwise the last declared length takes exactly that
      many bytes, and without one, or with too few bytes, the read fails. */
  lemma ReadHeaderBlock(lines: seq<(HeaderLine, nat)>, crs: nat, tail: Text)
    requires forall i | 0 <= i < |lines| :: lines[i].0.Valid()
    ensures var declared := Declared(lines, -1);
            var r := ReadFrame(Render(lines) + LineEnd(crs) + tail);
            && (declared == None ==> r == Failed(BadContentLength))
            && (declared.Some? && declared.value < 0 ==> r == Failed(MissingContentLength))
            && (declared.Some? && declared.value > |tail| ==> r == Failed(UnexpectedEOF))
            && (declared.Some? && 0 <= declared.value <= |tail| ==>
                r.Frame? && |r.body| == declared.value && r.body + r.rest == tail)
  {
    ReadBlock(lines, crs, tail);
    OutcomeMeans(Declared(lines, -1), tail);
  }

  lemma OutcomeMeans(declared: Option<int>, tail: Text)
    ensures var r := Outcome(declared, tail);
            && (declared == None ==> r == Failed(BadContentLength))
            && (declared.Some? && declared.value < 0 ==> r == Failed(MissingContentLength))
            && (declared.Some? && declared.value > |tail| ==> r == Failed(UnexpectedEOF))
            && (declared.Some? && 0 <= declared.value <= |tail| ==>
                r.Frame? && |r.body| == declared.value && r.body + r.rest == tail)
  {
  }

  // -------------------------------------------------------------- round trip

  function LengthLine(body: Text): HeaderLine {
    Length("", CONTENT_LENGTH, "", " " + Decimal(|body|))
  }

  lemma LengthLineText(digits: Text)
    ensures "" + CONTENT_LENGTH + "" + ":" + (" " + digits) == "Content-Length: " + digits
  {
    assert "" + CONTENT_LENGTH + "" + ":" == "Content-Length:";
    assert "Content-Length:" + (" " + digits) == "Content-Length: " + digits;
  }

  lemma LengthLineSpelling(body: Text)
    ensures LengthLine(body).Spelling() == "Content-Length: " + Decimal(|body|)
  {
    LengthLineText(Decimal(|body|));
  }

  lemma AppendOneLine(head: Text, digits: Text)
    requires digits != "" && AllDigits(digits) && forall i | 0 <= i < |head| :: head[i] != '\n'
    ensures OneLine(head + digits)
  {
    assert (head + digits)[|head + digits| - 1] == digits[|digits| - 1];
  }

  lemma LengthLineValid(body: Text)
    ensures LengthLine(body).Valid() && LengthLine(body).Declares(-1) == Some(|body|)
  {
    var head: Text := "Content-Length: ";
    LengthLineSpelling(body);
    AppendOneLine(head, Decimal(|body|));
    PaddedNumber(" ", |body|, "");
    assert " " + Decimal(|body|) + "" == " " + Decimal(|body|);
  }

  /** The header that `writeMessage` prints is one such block. */
  lemma HeaderIsBlock(body: Text)
    ensures var lines := [(LengthLine(body), 1)];
            LengthLine(body).Valid() && Declared(lines, -1) == Some(|body|) && HeaderOf(body) == Render(lines) + LineEnd(1)
  {
    var lines := [(LengthLine(body), 1)];
    LengthLineSpelling(body);
    LengthLineValid(body);
    assert LineEnd(1) == "\r\n";
    assert lines[1..] == [];
    assert Declared(lines[1..], |body|) == Some(|body|);
    assert Render(lines) == LengthLine(body).Spelling() + "\r\n";
  }

  /** Reading takes back exactly the body that was framed and leaves exactly the
      bytes that follow it, whatever the body contains. */
  lemma ReadFrameOf(body: Text, rest: Text)
    ensures ReadFrame(FrameOf(body) + rest) == Frame(body, rest)
  {
    var lines := [(LengthLine(body), 1)];
    HeaderIsBlock(body);
    assert FrameOf(body) + rest == Render(lines) + LineEnd(1) + (body + rest);
    ReadBlock(lines, 1, body + rest);
    SplitAt(body, rest);
  }

  lemma {:induction false} FramesOfCons(bodies: seq<Text>)
    requires bodies != []
    ensures FramesOf(bodies) == FrameOf(bodies[0]) + FramesOf(bodies[1..])
  {
    if |bodies| == 1 {
      assert bodies[..0] == [] && bodies[1..] == [];
    } else {
      var n := |bodies| - 1;
      FramesOfCons(bodies[..n]);
      InnerBodies(bodies);
      FramesOfLast(bodies[1..]);
      Associate(FrameOf(bodies[0]), FramesOf(bodies[1..n]), FrameOf(bodies[n]));
    }
  }

  lemma InnerBodies(bodies: seq<Text>)
    requires |bodies| > 1
    ensures var n := |bodies| - 1;
            && bodies[..n][0] == bodies[0] && bodies[..n][1..] == bodies[1..n]
            && bodies[1..][..n - 1] == bodies[1..n] && bodies[1..][n - 1] == bodies[n]
  {
  }

  lemma FramesOfLast(bodies: seq<Text>)
    requires bodies != []
    ensures FramesOf(bodies) == FramesOf(bodies[..|bodies| - 1]) + FrameOf(bodies[|bodies| - 1])
  {
  }

  lemma Regroup(bodies: seq<Text>, more: seq<Text>)
    requires bodies != []
    ensures [bodies[0]] + (bodies[1..] + more) == bodies + more
  {
  }

  /** Reading a concatenation of frames gives the bodies in order and goes on
      with whatever follows. */
  lemma ReadAllStep(body: Text, rest: Text)
    ensures ReadAll(FrameOf(body) + rest) == ([body] + ReadAll(rest).0, ReadAll(rest).1)
  {
    ReadFrameOf(body, rest);
  }

  lemma {:induction false} ReadAllFrames(bodies: seq<Text>, tail: Text)
    ensures ReadAll(FramesOf(bodies) + tail) == (bodies + ReadAll(tail).0, ReadAll(tail).1)
  {
    if bodies == [] {
      assert FramesOf(bodies) + tail == tail;
      assert bodies + ReadAll(tail).0 == ReadAll(tail).0;
    } else {
      var rest := FramesOf(bodies[1..]);
      FramesOfCons(bodies);
      Associate(FrameOf(bodies[0]), rest, tail);
      ReadAllStep(bodies[0], rest + tail);
      ReadAllFrames(bodies[1..], tail);
      Regroup(bodies, ReadAll(tail).0);
    }
  }

  // -------------------------------------------------------- partial input

  lemma IndexOfExtend(s: Text, t: Text, c: Byte)
    requires IndexOf(s, c) < |s|
    ensures IndexOf(s + t, c) == IndexOf(s, c)
  {
    IndexOfAt(s + t, c, IndexOf(s, c));
  }

  lemma FirstLine(s: Text, t: Text, length: int)
    requires IndexOf(s, '\n') < |s|
    ensures var n := IndexOf(s, '\n') + 1;
            ReadHeaders(s + t, length) == ReadAfter(TrimLineEnd(s[..n]), s[n..] + t, length)
  {
    var n := IndexOf(s, '\n') + 1;
    IndexOfExtend(s, t, '\n');
    DropInside(s, t, n);
    LineCut(s + t, n, s[..n], s[n..] + t, length);
  }

  lemma LineCut(s: Text, n: nat, line: Text, rest: Text, length: int)
    requires n <= |s| && n == IndexOf(s, '\n') + 1 && s[..n] == line && s[n..] == rest
    ensures ReadHeaders(s, length) == ReadAfter(TrimLineEnd(line), rest, length)
  {
  }

  /** Both read the same, unless the first came to the end of its input. */
  predicate Agree(r: HeaderResult, r': HeaderResult, t: Text) {
    r == HeaderFailed(UnexpectedEOF) || r' == if r.Headers? then r.(rest := r.rest + t) else r
  }

  lemma {:induction false} ReadHeadersExtend(s: Text, t: Text, length: int)
    ensures Agree(ReadHeaders(s, length), ReadHeaders(s + t, length), t)
    decreases |s|, 0
  {
    var n := IndexOf(s, '\n') + 1;
    if n <= |s| {
      FirstLine(s, t, length);
      LineCut(s, n, s[..n], s[n..], length);
      AfterExtend(TrimLineEnd(s[..n]), s[n..], t, length);
    }
  }

  lemma {:induction false} AfterExtend(trimmed: Text, rest: Text, t: Text, length: int)
    ensures Agree(ReadAfter(trimmed, rest, length), ReadAfter(trimmed, rest + t, length), t)
    decreases |rest|, 1
  {
    if trimmed != "" && ApplyHeader(trimmed, length).Some? {
      ReadHeadersExtend(rest, t, ApplyHeader(trimmed, length).value);
    }
  }

  /** A result other than end of file depends only on the bytes consumed: more
      input changes nothing but the rest, so the cut of the stream into reads
      is immaterial. */
  lemma ReadFrameExtend(s: Text, t: Text)
    ensures var r := ReadFrame(s);
            r == Failed(UnexpectedEOF) ||
            ReadFrame(s + t) == if r.Frame? then r.(rest := r.rest + t) else r
  {
    ReadHeadersExtend(s, t, -1);
    var h := ReadHeaders(s, -1);
    if h.Headers? {
      TakeBodyExtend(h.length, h.rest, t);
    }
  }

  lemma TakeBodyExtend(length: int, s: Text, t: Text)
    ensures var r := TakeBody(length, s);
            r == Failed(UnexpectedEOF) ||
            TakeBody(length, s + t) == if r.Frame? then r.(rest := r.rest + t) else r
  {
    if 0 <= length <= |s| {
      DropInside(s, t, length);
    }
  }

  /** A frame cut short is never taken for a message. */
  lemma ReadPartialFrame(body: Text, cut: nat)
    requires cut < |FrameOf(body)|
    ensures ReadFrame(FrameOf(body)[..cut]) == Failed(UnexpectedEOF)
    ensures ReadAll(FrameOf(body)[..cut]) == ([], FrameOf(body)[..cut])
  {
    var s, t := FrameOf(body)[..cut], FrameOf(body)[cut..];
    assert s + t == FrameOf(body) == FrameOf(body) + "";
    ReadFrameOf(body, "");
    ReadFrameExtend(s, t);
  }
}
