/** Paths as file URIs (section 2 of RFC 8089): the percent encoding of section 2.1
    of RFC 3986 as the URL type of the Go library applies it to paths, and the two
    conversions built on it. How the library takes an authority apart is a
    parameter: from its text to the host, or failure. */
module Uris {
  import opened Bytes
  import opened Decimals
  import opened CleanPaths
  import opened PathNorm

  // ----------------------------------------------------------- percent encoding

  /** Bytes that stand for themselves in the path of a URL. */
  predicate Literal(c: Byte) {
    IsLetter(c) || IsDigit(c) || c in "-_.~$&+,/:;=@"
  }

  function HexDigit(n: nat): Byte
    requires n < 16
  {
    if n < 10 then (n + 48) as char else (n + 55) as char
  }

  function HexValue(c: Byte): Option<nat> {
    if IsDigit(c) then Some(c as int - 48)
    else if 'a' <= c <= 'f' then Some(c as int - 87)
    else if 'A' <= c <= 'F' then Some(c as int - 55)
    else None
  }

  function EscapeByte(c: Byte): Text {
    if Literal(c) then [c] else ['%', HexDigit(c as int / 16), HexDigit(c as int % 16)]
  }

  function Escape(s: Text): Text {
    if s == "" then "" else EscapeByte(s[0]) + Escape(s[1..])
  }

  /** A percent sign must be followed by two hexadecimal digits of either case. */
  function Unescape(s: Text): Option<Text> {
    if s == "" then Some("")
    else if s[0] == '%' then
      if |s| < 3 || HexValue(s[1]) == None || HexValue(s[2]) == None then None
      else
        var c: Byte := HexByte(s[1], s[2]);
        match Unescape(s[3..]) case None => None case Some(t) => Some([c] + t)
    else
      match Unescape(s[1..]) case None => None case Some(t) => Some([s[0]] + t)
  }

  function HexByte(hi: Byte, lo: Byte): Byte
    requires HexValue(hi).Some? && HexValue(lo).Some?
  {
    (16 * HexValue(hi).value + HexValue(lo).value) as char
  }

  lemma HexRoundTrip(c: Byte)
    ensures var hi, lo := HexDigit(c as int / 16), HexDigit(c as int % 16);
            HexValue(hi).Some? && HexValue(lo).Some? && HexByte(hi, lo) == c
  {
  }

  /** Decoding undoes encoding on every byte string. */
  lemma {:induction false} UnescapeEscape(s: Text)
    ensures Unescape(Escape(s)) == Some(s)
  {
    if s != "" {
      var e := EscapeByte(s[0]);
      UnescapeEscape(s[1..]);
      SplitAt(e, Escape(s[1..]));
      if !Literal(s[0]) {
        HexRoundTrip(s[0]);
      }
      assert [s[0]] + s[1..] == s;
    }
  }

  /** No control byte, and nothing that ends a path inside a URL. */
  predicate PathByte(c: Byte) {
    c as int >= 0x20 && c as int != 0x7f && c != '#' && c != '?'
  }

  predicate PathBytes(s: Text) {
    forall i | 0 <= i < |s| :: PathByte(s[i])
  }

  lemma {:induction false} EscapeIsPath(s: Text)
    ensures PathBytes(Escape(s))
  {
    if s != "" {
      EscapeIsPath(s[1..]);
    }
  }

  /** The slashes of the encoded path are those of the path. */
  lemma {:induction false} EscapeAtSlash(s: Text)
    ensures var i, j := IndexOf(Escape(s), '/'), IndexOf(s, '/');
            Escape(s)[i..] == Escape(s[j..]) && (i == 0 <==> j == 0)
  {
    if s != "" && s[0] != '/' {
      EscapeAtSlash(s[1..]);
      EscapePastFirst(s);
      assert s[1..][IndexOf(s[1..], '/')..] == s[IndexOf(s, '/')..];
    }
  }

  lemma EscapedNoSlash(c: Byte)
    requires c != '/'
    ensures EscapeByte(c) != "" && forall i | 0 <= i < |EscapeByte(c)| :: EscapeByte(c)[i] != '/'
  {
  }

  lemma EscapePastFirst(s: Text)
    requires s != "" && s[0] != '/'
    ensures var i, rest := IndexOf(Escape(s), '/'), Escape(s[1..]);
            i > 0 && Escape(s)[i..] == rest[IndexOf(rest, '/')..]
  {
    EscapedNoSlash(s[0]);
    PastFree(EscapeByte(s[0]), Escape(s[1..]));
  }

  lemma PastFree(a: Text, b: Text)
    requires a != "" && forall i | 0 <= i < |a| :: a[i] != '/'
    ensures IndexOf(a + b, '/') > 0 && (a + b)[IndexOf(a + b, '/')..] == b[IndexOf(b, '/')..]
  {
    SkipIndex(a, b, '/');
    DropPast(a, b, IndexOf(b, '/'));
  }

  lemma DropPast(a: Text, b: Text, k: nat)
    requires k <= |b|
    ensures (a + b)[|a| + k..] == b[k..]
  {
  }

  lemma {:induction false} SkipIndex(a: Text, b: Text, c: Byte)
    requires forall i | 0 <= i < |a| :: a[i] != c
    ensures IndexOf(a + b, c) == |a| + IndexOf(b, c)
  {
    if a == "" {
      assert a + b == b;
    } else {
      assert (a + b)[1..] == a[1..] + b;
      SkipIndex(a[1..], b, c);
    }
  }

  // ------------------------------------------------------------------------ URLs

  datatype URL = URL(host: Text, path: Text)

  type Authority = Text -> Option<Text>

  /** The text of a URL with scheme "file", no host and the given path. */
  function FileUrl(path: Text): Text {
    if path == "" then "file:" else "file://" + (if path == "*" then "*" else Escape(path))
  }

  predicate HasControl(s: Text) {
    exists i :: 0 <= i < |s| && (s[i] as int < 0x20 || s[i] as int == 0x7f)
  }

  /** url.Parse together with the test for the scheme "file". */
  function ParseFileUrl(uri: Text, authority: Authority): Option<URL> {
    var hash := IndexOf(uri, '#');
    var text := uri[..hash];
    if HasControl(text) || (hash < |uri| && Unescape(uri[hash + 1..]) == None) then None
    else if |text| < 5 || !EqualFold(text[..4], "file") || text[4] != ':' then None
    else ParseRest(text[5..][..IndexOf(text[5..], '?')], authority)
  }

  /** What follows the scheme, without query and fragment. */
  function ParseRest(rest: Text, authority: Authority): Option<URL> {
    if !HasPrefix(rest, "/") then Some(URL("", ""))
    else if HasPrefix(rest, "//") then
      var slash := IndexOf(rest[2..], '/');
      match authority(rest[2..][..slash])
      case None => None
      case Some(host) => WithPath(host, rest[2..][slash..])
    else WithPath("", rest)
  }

  function WithPath(host: Text, escaped: Text): Option<URL> {
    match Unescape(escaped)
    case None => None
    case Some(path) => Some(URL(host, path))
  }

  // -------------------------------------------------- the language server's paths

  function UriFromPath(absPath: Text): Text {
    FileUrl(absPath)
  }

  function PathFromURI(uri: Text, authority: Authority): Option<Text> {
    match ParseFileUrl(uri, authority)
    case None => None
    case Some(url) => Some(url.path)
  }

  // -------------------------------------------------------------- host paths

  function PathToURI(p: Text): Text {
    FileUrl(Normalize(p))
  }

  predicate DriveAfterSlash(p: Text) {
    |p| >= 3 && p[0] == '/' && IsLetter(p[1]) && p[2] == ':'
  }

  function URIToPath(uri: Text, authority: Authority): Option<Text> {
    match ParseFileUrl(uri, authority)
    case None => None
    case Some(URL(host, path)) =>
      if host != "" && !EqualFold(host, "localhost") then Some("//" + host + path)
      else if path == "" then None
      else if DriveAfterSlash(path) then Some(Normalize(path[1..]))
      else Some(Normalize(path))
  }

  // ------------------------------------------------------------------ round trips

  /** What the parser makes of a URL built from a path. */
  function Reparsed(path: Text, authority: Authority): Option<URL> {
    if path == "" then Some(URL("", ""))
    else
      var text := if path == "*" then "*" else Escape(path);
      match authority(text[..IndexOf(text, '/')])
      case None => None
      case Some(host) => Some(URL(host, path[IndexOf(path, '/')..]))
  }

  /** Text of path bytes is not cut anywhere. */
  lemma Uncut(s: Text)
    requires PathBytes(s)
    ensures s[..IndexOf(s, '#')] == s && s[..IndexOf(s, '?')] == s && !HasControl(s)
  {
  }

  lemma ParsePathText(text: Text, authority: Authority)
    requires PathBytes(text)
    ensures ParseFileUrl("file://" + text, authority) == ParseRest("//" + text, authority)
  {
    var rest := "//" + text;
    var uri := "file:" + rest;
    assert uri == "file://" + text;
    assert PathBytes("file:") && PathBytes("//");
    Uncut(uri);
    Uncut(rest);
    SplitAt<Byte>("file:", rest);
    assert uri[..4] == "file";
  }

  lemma AfterSlashes(text: Text, i: nat, authority: Authority)
    requires i == IndexOf(text, '/')
    ensures ParseRest("//" + text, authority)
         == match authority(text[..i]) case None => None case Some(host) => WithPath(host, text[i..])
  {
    assert ("//" + text)[2..] == text;
  }

  lemma EscapedTail(path: Text)
    requires path != ""
    ensures var text := if path == "*" then "*" else Escape(path);
            Unescape(text[IndexOf(text, '/')..]) == Some(path[IndexOf(path, '/')..])
  {
    if path == "*" {
      assert "*"[1..] == "" && IndexOf("*", '/') == 1;
    } else {
      EscapeAtSlash(path);
      UnescapeEscape(path[IndexOf(path, '/')..]);
    }
  }

  lemma ReparsedText(path: Text, authority: Authority)
    requires path != ""
    ensures var text := if path == "*" then "*" else Escape(path);
            ParseRest("//" + text, authority) == Reparsed(path, authority)
  {
    var text := if path == "*" then "*" else Escape(path);
    AfterSlashes(text, IndexOf(text, '/'), authority);
    EscapedTail(path);
  }

  lemma Reparse(path: Text, authority: Authority)
    ensures ParseFileUrl(FileUrl(path), authority) == Reparsed(path, authority)
  {
    if path == "" {
      assert PathBytes("file:");
    } else {
      var text := if path == "*" then "*" else Escape(path);
      EscapeIsPath(path);
      ParsePathText(text, authority);
      ReparsedText(path, authority);
    }
  }

  /** The language server's paths survive the trip through a URI if and only if they
      are absolute or empty, whatever the library makes of authorities. */
  lemma PathUriRoundTrip(p: Text, authority: Authority)
    requires authority("") == Some("")
    ensures PathFromURI(UriFromPath(p), authority) == Some(p) <==> p == "" || p[0] == '/'
  {
    Reparse(p, authority);
    if p != "" {
      var text := if p == "*" then "*" else Escape(p);
      EscapeAtSlash(p);
      assert IndexOf(p, '/') < |p| ==> p[IndexOf(p, '/')..][0] == '/';
      assert p[0] == '/' ==> text[..0] == "" && p[0..] == p;
    }
  }

  lemma DriveAfterSlashLost(q: Text)
    requires DriveAfterSlash(q) && Free(q, '\\') && Clean(q) == q
    ensures Normalize(q[1..]) != q
  {
    var r := q[1..];
    if |r| > 2 && r[2] == '/' {
      DriveMoved(q);
    } else {
      assert IsDriveLetterPath(r) ==> |r| == 2;
      ToSlashSame(r);
      CleanRoot(r);
    }
  }

  /** Below a drive letter, the path is taken for one on the drive's mount. */
  lemma DriveMoved(q: Text)
    requires DriveAfterSlash(q) && Free(q, '\\') && Clean(q) == q && |q| > 3 && q[3] == '/'
    ensures Normalize(q[1..]) != q
  {
    var drive, tail := q[1], q[4..];
    assert q[1..] == [drive, ':', '/'] + tail;
    DriveToWSL(drive, '/', tail);
    assert ToSlash(tail) == tail;
    var cs := CleanIsAbs(q);
    assert Join(cs) == [drive, ':'] + "/" + tail by {
      assert Abs(cs)[1..] == Join(cs);
    }
    SplitJoin(cs);
    SplitFirst([drive, ':'], tail);
    assert Split(tail) == cs[1..];
    MountResolved(drive, cs[1..]);
    ResolveKeeps(["mnt", [Lower(drive)]], cs[1..], true);
    MountAbs(Lower(drive), cs[1..]);
  }

  // ------------------------------------------------------ cleaning never grows

  function Length(cs: seq<Text>): nat {
    if cs == [] then 0 else Length(cs[..|cs| - 1]) + |cs[|cs| - 1]| + 1
  }

  lemma {:induction false} LengthAppend(a: seq<Text>, b: seq<Text>)
    ensures Length(a + b) == Length(a) + Length(b)
  {
    if b == [] {
      assert a + b == a;
    } else {
      assert (a + b)[..|a + b| - 1] == a + b[..|b| - 1];
      LengthAppend(a, b[..|b| - 1]);
    }
  }

  lemma LengthCons(cs: seq<Text>)
    requires cs != []
    ensures Length(cs) == |cs[0]| + 1 + Length(cs[1..])
  {
    assert cs == [cs[0]] + cs[1..];
    LengthAppend([cs[0]], cs[1..]);
    assert cs[..1] == [cs[0]] && cs[..1][..0] == [];
  }

  lemma {:induction false} SplitLength(s: Text)
    ensures Length(Split(s)) == |s| + 1
  {
    LengthCons(Split(s));
    if s != "" {
      SplitLength(s[1..]);
      LengthCons(Split(s[1..]));
      var rest := Split(s[1..]);
      if s[0] == '/' {
        assert Split(s)[1..] == rest;
      } else {
        assert Split(s)[1..] == rest[1..];
      }
    }
  }

  lemma {:induction false} JoinLength(cs: seq<Text>)
    requires cs != []
    ensures |Join(cs)| == Length(cs) - 1
  {
    LengthCons(cs);
    if |cs| > 1 {
      JoinLength(cs[1..]);
    }
  }

  lemma {:induction false} ResolveLength(stack: seq<Text>, cs: seq<Text>, rooted: bool)
    ensures Length(Resolve(stack, cs, rooted)) <= Length(stack) + Length(cs)
    decreases |cs|
  {
    if cs != [] {
      LengthCons(cs);
      LengthAppend(stack, [cs[0]]);
      LengthAppend(stack, [".."]);
      LengthCons([cs[0]]);
      LengthCons([".."]);
      ResolveLength(Push(stack, cs[0], rooted), cs[1..], rooted);
    }
  }

  lemma CleanShrinks(p: Text)
    requires p != "" && p[0] != '/'
    ensures |Clean(p)| <= |p|
  {
    SplitLength(p);
    ResolveLength([], Split(p), false);
    if Resolve([], Split(p), false) != [] {
      JoinLength(Resolve([], Split(p), false));
    }
  }

  /** A path cut at a slash is not rebuilt from what follows it. */
  lemma RelativeLost(q: Text, path: Text)
    requires q != "" && q[0] != '/' && |path| < |q| && path != "" && path[0] == '/'
    ensures Normalize(path) != q
    ensures DriveAfterSlash(path) ==> Normalize(path[1..]) != q
  {
    NormalizeRooted(path);
    if DriveAfterSlash(path) {
      NormalizeDriveLike(path[1..], q);
    }
  }

  lemma NormalizeDriveLike(r: Text, q: Text)
    requires |r| >= 2 && IsLetter(r[0]) && r[1] == ':' && |r| < |q| && q[0] != '/'
    ensures Normalize(r) != q
  {
    if IsWindowsPath(r) && WindowsToWSL(r).Ok? {
      WindowsToWSLCanonical(r);
    } else {
      CleanShrinks(ToSlash(r));
    }
  }

  /** A path survives the trip through a URI, up to normalisation, if and only if its
      normal form is absolute and does not start with a slash, a letter and a colon. */
  lemma HostPathUriRoundTrip(p: Text, authority: Authority)
    requires authority("") == Some("")
    ensures var n := Normalize(p);
            URIToPath(PathToURI(p), authority) == Some(n) <==> HasPrefix(n, "/") && !DriveAfterSlash(n)
  {
    var n := Normalize(p);
    Reparse(n, authority);
    NormalizeCanonical(p);
    if HasPrefix(n, "/") {
      AbsoluteReparsed(n, authority);
      NormalizeIdempotent(p);
      if DriveAfterSlash(n) {
        DriveAfterSlashLost(n);
      }
    } else if n != "" {
      var path := n[IndexOf(n, '/')..];
      if path != "" {
        RelativeLost(n, path);
      }
    }
  }

  lemma AbsoluteReparsed(path: Text, authority: Authority)
    requires authority("") == Some("") && HasPrefix(path, "/")
    ensures Reparsed(path, authority) == Some(URL("", path))
  {
  }

  /** "localhost" in any case. */
  predicate LocalHost(host: Text) {
    EqualFold(host, "localhost")
  }

  lemma LocalHostBytes(host: Text)
    requires host == "" || LocalHost(host)
    ensures PathBytes(host) && Free(host, '/')
  {
    var name: Text := "localhost";
    assert forall i | 0 <= i < |name| :: 'a' <= name[i] <= 'z';
    if host != "" {
      forall i | 0 <= i < |host| ensures IsLetter(host[i]) {
        assert Lower(host[i]) == Lower(name[i]);
      }
    }
  }

  lemma PathBytesAppend(a: Text, b: Text)
    requires PathBytes(a) && PathBytes(b)
    ensures PathBytes(a + b)
  {
  }

  lemma LocalUrl(uri: Text, host: Text, p: Text, authority: Authority)
    requires ParseFileUrl(uri, authority) == Some(URL(host, p)) && p != ""
    requires host == "" || LocalHost(host)
    ensures URIToPath(uri, authority) == Some(HostPath(p))
  {
  }

  lemma ParseHost(escaped: Text, host: Text, authority: Authority)
    requires HasPrefix(escaped, "/") && Free(host, '/') && authority(host) == Some(host)
    ensures ParseRest("//" + (host + escaped), authority) == WithPath(host, escaped)
  {
    var text := host + escaped;
    assert ("//" + text)[2..] == text;
    assert escaped[0] == '/';
    IndexOfAt(text, '/', |host|);
    SplitAt(host, escaped);
  }

  lemma {:induction false} UnescapeRooted(escaped: Text)
    requires HasPrefix(escaped, "/") && Unescape(escaped).Some?
    ensures HasPrefix(Unescape(escaped).value, "/")
  {
    assert escaped[0] == '/';
  }

  lemma ParseForms(escaped: Text, host: Text, authority: Authority)
    requires HasPrefix(escaped, "/") && PathBytes(escaped)
    requires (host == "" || LocalHost(host)) && authority(host) == Some(host)
    ensures ParseFileUrl("file://" + (host + escaped), authority) == WithPath(host, escaped)
  {
    LocalHostBytes(host);
    PathBytesAppend(host, escaped);
    ParsePathText(host + escaped, authority);
    ParseHost(escaped, host, authority);
  }

  /** The host path of an absolute path in a URI: a drive letter in front is read
      without the leading slash. */
  function HostPath(p: Text): Text {
    if DriveAfterSlash(p) then Normalize(p[1..]) else Normalize(p)
  }

  lemma UrlToPath(uri: Text, host: Text, escaped: Text, authority: Authority)
    requires ParseFileUrl(uri, authority) == WithPath(host, escaped)
    requires HasPrefix(escaped, "/") && (host == "" || LocalHost(host))
    ensures URIToPath(uri, authority)
         == match Unescape(escaped) case None => None case Some(p) => Some(HostPath(p))
  {
    if Unescape(escaped).Some? {
      UnescapeRooted(escaped);
      LocalUrl(uri, host, Unescape(escaped).value, authority);
    }
  }

  /** Any spelling of a file URI for an absolute path, percent-encoded as much or as
      little as one likes, with the empty authority or with "localhost" in any case,
      denotes the normalised path. With a malformed encoding it is an error. */
  lemma FileUriForms(uri: Text, escaped: Text, host: Text, authority: Authority)
    requires uri == "file://" + (host + escaped) && HasPrefix(escaped, "/") && PathBytes(escaped)
    requires (host == "" || LocalHost(host)) && authority(host) == Some(host)
    ensures URIToPath(uri, authority)
         == match Unescape(escaped) case None => None case Some(p) => Some(HostPath(p))
  {
    ParseForms(escaped, host, authority);
    UrlToPath(uri, host, escaped, authority);
  }
}
