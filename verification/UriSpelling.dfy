/** File URIs byte by byte: which bytes stand for themselves, how the others are
    written, what is read back from any text, and what other URIs come to. */
module UriSpelling {
  import opened Bytes
  import opened Decimals
  import opened CleanPaths
  import opened PathNorm
  import opened Uris

  // ----------------------------------------------------------------- encoding

  /** The bytes that the URL type of the Go library leaves as they are in a path. */
  predicate Kept(c: Byte) {
    c in UPPER_LETTERS || c in LOWER_LETTERS || c in "0123456789" || c in "-_.~$&+,/:;=@"
  }

  const HEX: Text := "0123456789ABCDEF"

  const LOWER_HEX: Text := "0123456789abcdef"

  /** `piece` writes the byte `c`: itself if it is kept, and otherwise a percent sign
      and two digits, high and low. */
  predicate Writes(piece: Text, c: Byte) {
    if Kept(c) then piece == [c]
    else piece == ['%', HEX[c as int / 16], HEX[c as int % 16]]
  }

  lemma LetterListed(c: Byte)
    ensures IsLetter(c) <==> c in UPPER_LETTERS || c in LOWER_LETTERS
  {
    CaseOfLetters(0, c);
    if c in UPPER_LETTERS {
      var i :| 0 <= i < |UPPER_LETTERS| && UPPER_LETTERS[i] == c;
      CaseOfLetters(i, c);
    } else if c in LOWER_LETTERS {
      var i :| 0 <= i < |LOWER_LETTERS| && LOWER_LETTERS[i] == c;
      CaseOfLetters(i, c);
    }
  }

  lemma KeptIsLiteral(c: Byte)
    ensures Kept(c) <==> Literal(c)
  {
    LetterListed(c);
    DigitListed(c);
  }

  lemma HexDigitIs(n: nat)
    requires n < 16
    ensures HexDigit(n) == HEX[n]
  {
  }

  lemma EscapeByteWrites(c: Byte)
    ensures Writes(EscapeByte(c), c)
  {
    KeptIsLiteral(c);
    HexDigitIs(c as int / 16);
    HexDigitIs(c as int % 16);
  }

  /** One piece for each byte, each writing its byte. */
  ghost predicate WritesAll(pieces: seq<Text>, s: Text) {
    |pieces| == |s| && forall i | 0 <= i < |s| :: Writes(pieces[i], s[i])
  }

  lemma ConcatFirst(piece: Text, pieces: seq<Text>)
    ensures Concat([piece] + pieces) == piece + Concat(pieces)
  {
    ConcatAppend([piece], pieces);
    assert Concat([]) == "" && [piece][..0] == [];
    assert Concat([piece]) == piece;
  }

  lemma {:induction false} EscapeInPieces(s: Text) returns (pieces: seq<Text>)
    ensures WritesAll(pieces, s) && Escape(s) == Concat(pieces)
  {
    if s == "" {
      pieces := [];
    } else {
      var rest := EscapeInPieces(s[1..]);
      pieces := [EscapeByte(s[0])] + rest;
      EscapeByteWrites(s[0]);
      ConcatFirst(EscapeByte(s[0]), rest);
    }
  }

  /** Only bytes of the list and percent signs come out: no space, no quote, nothing
      beyond ASCII. */
  predicate Plain7(c: Byte) {
    Kept(c) || c == '%'
  }

  lemma WrittenPlain(piece: Text, c: Byte)
    requires Writes(piece, c)
    ensures forall i | 0 <= i < |piece| :: Plain7(piece[i])
  {
    if !Kept(c) {
      HexKept(c as int / 16);
      HexKept(c as int % 16);
    }
  }

  lemma HexKept(n: nat)
    requires n < 16
    ensures Kept(HEX[n])
  {
    KeptIsLiteral(HEX[n]);
  }

  lemma {:induction false} EscapePlain(s: Text)
    ensures forall i | 0 <= i < |Escape(s)| :: Plain7(Escape(s)[i])
  {
    if s != "" {
      EscapeByteWrites(s[0]);
      WrittenPlain(EscapeByte(s[0]), s[0]);
      EscapePlain(s[1..]);
    }
  }

  lemma LiteralRange(c: Byte)
    requires Literal(c)
    ensures 0x21 < c as int < 0x7f && c != '"' && c != '\'' && c != ' '
  {
  }

  lemma PlainRange(c: Byte)
    requires Plain7(c)
    ensures 0x21 < c as int < 0x7f && c != '"' && c != '\'' && c != ' '
  {
    KeptIsLiteral(c);
    if Literal(c) {
      LiteralRange(c);
    }
  }

  /** The encoding of every byte string: letters, digits and the listed bytes stand for
      themselves, and every other byte becomes a percent sign and its two hexadecimal
      digits in upper case. Nothing in the result is a space, a quote or beyond ASCII. */
  lemma EscapeIs(s: Text)
    ensures exists pieces :: WritesAll(pieces, s) && Escape(s) == Concat(pieces)
    ensures forall i | 0 <= i < |Escape(s)| :: Plain7(Escape(s)[i]) && 0x21 < Escape(s)[i] as int < 0x7f
    ensures forall i | 0 <= i < |Escape(s)| :: Escape(s)[i] != ' ' && Escape(s)[i] != '"' && Escape(s)[i] != '\''
  {
    var pieces := EscapeInPieces(s);
    EscapePlain(s);
    forall i | 0 <= i < |Escape(s)|
      ensures 0x21 < Escape(s)[i] as int < 0x7f
      ensures Escape(s)[i] != ' ' && Escape(s)[i] != '"' && Escape(s)[i] != '\''
    {
      PlainRange(Escape(s)[i]);
    }
  }

  /** The URI of a path: the scheme, the empty authority and the encoded path. The
      library has two exceptions: no path at all, and a single star. */
  lemma UriIs(absPath: Text, p: Text)
    ensures UriFromPath(absPath)
         == if absPath == "" then "file:" else if absPath == "*" then "file://*" else "file://" + Escape(absPath)
    ensures PathToURI(p) == UriFromPath(Normalize(p))
    ensures HasPrefix(Normalize(p), "/") ==> PathToURI(p) == "file://" + Escape(Normalize(p))
  {
  }

  // ----------------------------------------------------------------- decoding

  predicate HexAt(c: Byte, n: nat) {
    n < 16 && (c == HEX[n] || c == LOWER_HEX[n])
  }

  /** `piece` reads as the byte `c`: itself unless it is a percent sign, or a percent
      sign and the two digits of `c`, in either case. */
  predicate Reads(piece: Text, c: Byte) {
    || (piece == [c] && c != '%')
    || (|piece| == 3 && piece[0] == '%' && HexAt(piece[1], c as int / 16) && HexAt(piece[2], c as int % 16))
  }

  ghost predicate ReadsAll(pieces: seq<Text>, s: Text) {
    |pieces| == |s| && forall i | 0 <= i < |s| :: Reads(pieces[i], s[i])
  }

  lemma HexValueIs(c: Byte, n: nat)
    ensures HexValue(c) == Some(n) <==> HexAt(c, n)
  {
    if HexValue(c) == Some(n) {
      ValueAt(c, n);
    } else if HexAt(c, n) {
      AtValue(c, n);
    }
  }

  lemma ValueAt(c: Byte, n: nat)
    requires HexValue(c) == Some(n)
    ensures HexAt(c, n)
  {
  }

  lemma AtValue(c: Byte, n: nat)
    requires HexAt(c, n)
    ensures HexValue(c) == Some(n)
  {
  }

  lemma TwoDigits(hi: nat, lo: nat, n: nat)
    requires hi < 16 && lo < 16
    ensures 16 * hi + lo == n <==> hi == n / 16 && lo == n % 16
  {
  }

  lemma ValueRange(c: Byte)
    requires HexValue(c).Some?
    ensures HexValue(c).value < 16
  {
  }

  lemma HexByteIs(hi: Byte, lo: Byte, c: Byte)
    requires HexValue(hi).Some? && HexValue(lo).Some?
    ensures HexByte(hi, lo) == c <==> HexAt(hi, c as int / 16) && HexAt(lo, c as int % 16)
  {
    HexValueIs(hi, c as int / 16);
    HexValueIs(lo, c as int % 16);
    ValueRange(hi);
    ValueRange(lo);
    TwoDigits(HexValue(hi).value, HexValue(lo).value, c as int);
  }

  lemma UnescapePlain(s: Text)
    requires s != "" && s[0] != '%' && Unescape(s).Some?
    ensures Unescape(s[1..]).Some? && Unescape(s).value == [s[0]] + Unescape(s[1..]).value
  {
  }

  lemma UnescapeEncoded(s: Text)
    requires s != "" && s[0] == '%' && Unescape(s).Some?
    ensures |s| >= 3 && HexValue(s[1]).Some? && HexValue(s[2]).Some? && Unescape(s[3..]).Some?
    ensures Unescape(s).value == [HexByte(s[1], s[2])] + Unescape(s[3..]).value
  {
  }

  lemma ReadsEncoded(hi: Byte, lo: Byte)
    requires HexValue(hi).Some? && HexValue(lo).Some?
    ensures Reads(['%', hi, lo], HexByte(hi, lo))
  {
    HexByteIs(hi, lo, HexByte(hi, lo));
  }

  lemma ReadsMore(piece: Text, c: Byte, pieces: seq<Text>, t: Text)
    requires Reads(piece, c) && ReadsAll(pieces, t)
    ensures ReadsAll([piece] + pieces, [c] + t)
  {
  }

  lemma {:induction false} UnescapePieces(s: Text) returns (pieces: seq<Text>)
    requires Unescape(s).Some?
    ensures ReadsAll(pieces, Unescape(s).value) && s == Concat(pieces)
  {
    if s == "" {
      pieces := [];
    } else if s[0] == '%' {
      UnescapeEncoded(s);
      var rest := UnescapePieces(s[3..]);
      pieces := [['%', s[1], s[2]]] + rest;
      ReadsEncoded(s[1], s[2]);
      ReadsMore(['%', s[1], s[2]], HexByte(s[1], s[2]), rest, Unescape(s[3..]).value);
      ConcatFirst(['%', s[1], s[2]], rest);
      assert ['%', s[1], s[2]] + s[3..] == s;
    } else {
      UnescapePlain(s);
      var rest := UnescapePieces(s[1..]);
      pieces := [[s[0]]] + rest;
      ReadsMore([s[0]], s[0], rest, Unescape(s[1..]).value);
      ConcatFirst([s[0]], rest);
      assert [s[0]] + s[1..] == s;
    }
  }

  lemma ReadsFirst(piece: Text, c: Byte, rest: Text)
    requires Reads(piece, c) && Unescape(rest).Some?
    ensures Unescape(piece + rest) == Some([c] + Unescape(rest).value)
  {
    if |piece| == 1 {
      assert (piece + rest)[1..] == rest;
    } else {
      HexValueIs(piece[1], c as int / 16);
      HexValueIs(piece[2], c as int % 16);
      HexByteIs(piece[1], piece[2], c);
      assert (piece + rest)[3..] == rest;
    }
  }

  lemma {:induction false} PiecesUnescape(pieces: seq<Text>, t: Text)
    requires ReadsAll(pieces, t)
    ensures Unescape(Concat(pieces)) == Some(t)
  {
    if pieces != [] {
      PiecesUnescape(pieces[1..], t[1..]);
      assert pieces == [pieces[0]] + pieces[1..] && t == [t[0]] + t[1..];
      ConcatFirst(pieces[0], pieces[1..]);
      ReadsFirst(pieces[0], t[0], Concat(pieces[1..]));
    }
  }

  /** Decoding, for every text: it gives `t` if and only if the text falls into pieces
      that read as the bytes of `t`, hexadecimal digits in either case; a percent sign
      without two digits after it makes it fail. */
  lemma UnescapeIff(s: Text, t: Text)
    ensures Unescape(s) == Some(t) <==> exists pieces :: ReadsAll(pieces, t) && s == Concat(pieces)
  {
    if Unescape(s) == Some(t) {
      var pieces := UnescapePieces(s);
    }
    if pieces :| ReadsAll(pieces, t) && s == Concat(pieces) {
      PiecesUnescape(pieces, t);
    }
  }

  // --------------------------------------------------------------- other URIs

  lemma AnyHost(escaped: Text, server: Text, authority: Authority)
    requires HasPrefix(escaped, "/") && PathBytes(escaped) && PathBytes(server) && Free(server, '/')
    ensures ParseFileUrl("file://" + (server + escaped), authority)
         == match authority(server) case None => None case Some(host) => WithPath(host, escaped)
  {
    PathBytesAppend(server, escaped);
    ParsePathText(server + escaped, authority);
    HostBefore(server, escaped);
    AfterSlashes(server + escaped, |server|, authority);
  }

  lemma HostBefore(server: Text, escaped: Text)
    requires HasPrefix(escaped, "/") && Free(server, '/')
    ensures |server| == IndexOf(server + escaped, '/')
    ensures (server + escaped)[..|server|] == server && (server + escaped)[|server|..] == escaped
  {
    assert escaped[0] == '/';
    IndexOfAt(server + escaped, '/', |server|);
    SplitAt(server, escaped);
  }

  /** A URI with any other host: the core gets two slashes, the host and the decoded
      path, and the language client the decoded path alone. A bad host or a malformed
      encoding is an error for both. */
  lemma RemoteUri(uri: Text, escaped: Text, server: Text, authority: Authority)
    requires uri == "file://" + (server + escaped)
    requires HasPrefix(escaped, "/") && PathBytes(escaped) && PathBytes(server) && Free(server, '/')
    ensures authority(server) == None ==> URIToPath(uri, authority) == None && PathFromURI(uri, authority) == None
    ensures Unescape(escaped) == None ==> URIToPath(uri, authority) == None && PathFromURI(uri, authority) == None
    ensures authority(server).Some? && Unescape(escaped).Some? ==>
              && PathFromURI(uri, authority) == Unescape(escaped)
              && (authority(server).value != "" && !LocalHost(authority(server).value) ==>
                  URIToPath(uri, authority) == Some("//" + authority(server).value + Unescape(escaped).value))
  {
    AnyHost(escaped, server, authority);
  }

  /** Whatever does not begin with "file", in any case, and a colon is an error. */
  lemma OtherScheme(uri: Text, authority: Authority)
    requires |uri| < 5 || !EqualFold(uri[..4], "file") || uri[4] != ':'
    ensures URIToPath(uri, authority) == None && PathFromURI(uri, authority) == None
  {
    var text := uri[..IndexOf(uri, '#')];
    if |text| >= 5 {
      assert text[..4] == uri[..4] && text[4] == uri[4];
    }
  }

  /** A query after the path is ignored, and so is a well-formed fragment. */
  lemma QueryIgnored(text: Text, query: Text, authority: Authority)
    requires PathBytes(text) && !HasControl(query) && Free(query, '#')
    ensures ParseFileUrl("file:" + (text + ("?" + query)), authority) == ParseFileUrl("file:" + text, authority)
  {
    var uri, uri' := "file:" + text, "file:" + (text + ("?" + query));
    assert PathBytes("file:");
    NoHash(uri);
    NoHash(uri');
    assert uri'[..|uri'|] == uri' && uri[..|uri|] == uri;
    assert uri'[..4] == uri[..4] && uri'[4] == uri[4];
    assert uri'[5..] == text + ("?" + query) && uri[5..] == text;
    IndexOfAt(text + ("?" + query), '?', |text|);
    Uncut(text);
    SplitAt(text, "?" + query);
    SameControl(text, query);
  }

  lemma NoHash(s: Text)
    requires Free(s, '#')
    ensures IndexOf(s, '#') == |s|
  {
  }

  lemma SameControl(text: Text, query: Text)
    requires PathBytes(text) && !HasControl(query)
    ensures !HasControl("file:" + (text + ("?" + query))) && !HasControl("file:" + text)
  {
    var s := "file:" + (text + ("?" + query));
    forall i | 0 <= i < |s| ensures !(s[i] as int < 0x20 || s[i] as int == 0x7f) {
      if i >= 6 + |text| {
        assert s[i] == query[i - 6 - |text|];
      }
    }
  }

  /** A fragment must decode, and is then ignored; otherwise the URI is an error. */
  lemma FragmentIgnored(uri: Text, fragment: Text, authority: Authority)
    requires Free(uri, '#')
    ensures ParseFileUrl(uri + ("#" + fragment), authority)
         == if Unescape(fragment) == None then None else ParseFileUrl(uri, authority)
  {
    var all := uri + ("#" + fragment);
    IndexOfAt(all, '#', |uri|);
    SplitAt(uri, "#" + fragment);
    assert all[|uri| + 1..] == fragment;
    NoHash(uri);
    assert uri[..|uri|] == uri;
  }

  /** A URI with a host and no path: an error for the core when the host is this one. */
  lemma NoPath(uri: Text, server: Text, authority: Authority)
    requires uri == "file://" + server && PathBytes(server) && Free(server, '/')
    ensures authority(server) == None ==> URIToPath(uri, authority) == None && PathFromURI(uri, authority) == None
    ensures authority(server).Some? ==>
              && PathFromURI(uri, authority) == Some("")
              && URIToPath(uri, authority)
                 == if authority(server).value == "" || LocalHost(authority(server).value) then None
                    else Some("//" + authority(server).value)
  {
    ParsePathText(server, authority);
    NoSlash(server);
    AfterSlashes(server, |server|, authority);
    assert server[..|server|] == server && server[|server|..] == "";
    assert authority(server).Some? ==> "//" + authority(server).value + "" == "//" + authority(server).value;
  }

  lemma NoSlash(s: Text)
    requires Free(s, '/')
    ensures IndexOf(s, '/') == |s|
  {
  }

  /** One slash after the scheme is as good as three, and no slash gives no path. */
  lemma OtherForms(uri: Text, rest: Text, authority: Authority)
    requires uri == "file:" + rest && PathBytes(rest)
    ensures HasPrefix(rest, "/") && !HasPrefix(rest, "//") ==>
              && PathFromURI(uri, authority) == Unescape(rest)
              && URIToPath(uri, authority)
                 == match Unescape(rest) case None => None case Some(p) => Some(HostPath(p))
    ensures !HasPrefix(rest, "/") ==> PathFromURI(uri, authority) == Some("") && URIToPath(uri, authority) == None
  {
    ParseAfterScheme(uri, rest, authority);
    if HasPrefix(rest, "/") && !HasPrefix(rest, "//") && Unescape(rest).Some? {
      UnescapeRooted(rest);
    }
  }

  lemma ParseAfterScheme(uri: Text, rest: Text, authority: Authority)
    requires uri == "file:" + rest && PathBytes(rest)
    ensures ParseFileUrl(uri, authority) == ParseRest(rest, authority)
  {
    assert PathBytes("file:");
    Uncut(uri);
    Uncut(rest);
    SplitAt<Byte>("file:", rest);
    assert uri[..4] == "file";
  }

  /** A control byte before the fragment makes any URI an error. */
  lemma ControlRejected(uri: Text, authority: Authority, i: nat)
    requires i < IndexOf(uri, '#') && (uri[i] as int < 0x20 || uri[i] as int == 0x7f)
    ensures URIToPath(uri, authority) == None && PathFromURI(uri, authority) == None
  {
    var text := uri[..IndexOf(uri, '#')];
    assert text[i] == uri[i];
    assert HasControl(text);
  }
}
