/** Conversion between Windows, WSL UNC and POSIX paths. */
module PathNorm {
  import opened Bytes
  import opened CleanPaths

  datatype PathError = EmptyPath | MalformedUNC | UnsupportedUNC | BareDrive | NotAbsolute | NoDistro

  datatype Result = Ok(path: Text) | Err(error: PathError)

  // ----------------------------------------------------------------- operations

  /** strings.ReplaceAll for single bytes. */
  function Replace(s: Text, from: Byte, to: Byte): (r: Text)
    ensures |r| == |s|
    ensures forall i | 0 <= i < |s| :: r[i] == if s[i] == from then to else s[i]
  {
    seq(|s|, i requires 0 <= i < |s| => if s[i] == from then to else s[i])
  }

  function ToSlash(s: Text): Text {
    Replace(s, '\\', '/')
  }

  function ToBackslash(s: Text): Text {
    Replace(s, '/', '\\')
  }

  /** strings.ToLower, as far as server names go. */
  function ToLower(s: Text): Text {
    seq(|s|, i requires 0 <= i < |s| => Lower(s[i]))
  }

  predicate IsDriveLetterPath(p: Text) {
    |p| >= 2 && IsLetter(p[0]) && p[1] == ':' && (|p| == 2 || p[2] == '\\' || p[2] == '/')
  }

  predicate IsUNCPath(p: Text) {
    HasPrefix(p, "\\\\")
  }

  predicate IsWindowsPath(p: Text) {
    IsDriveLetterPath(p) || IsUNCPath(p)
  }

  function ConvertUNCToWSL(p: Text): Result {
    var trimmed := TrimPrefix(ToSlash(TrimPrefix(p, "\\\\")), "/");
    var segments := Split(trimmed);
    if |segments| < 2 || segments[0] == "" || segments[1] == "" then Err(MalformedUNC)
    else
      var server := ToLower(segments[0]);
      if server != "wsl$" && server != "wsl.localhost" then Err(UnsupportedUNC)
      else Ok(Clean("/" + Join(segments[2..])))
  }

  function WindowsToWSL(p: Text): Result {
    if p == "" then Err(EmptyPath)
    else if IsUNCPath(p) then ConvertUNCToWSL(p)
    else if HasPrefix(p, "/") then Ok(Clean(p))
    else if IsDriveLetterPath(p) then
      if |p| == 2 then Err(BareDrive)
      else
        var rest := ToSlash(TrimPrefix(TrimPrefix(p[2..], "\\"), "/"));
        Ok(Clean("/mnt/" + [Lower(p[0])] + "/" + rest))
    else Err(NotAbsolute)
  }

  datatype Mount = Mount(drive: Byte, rest: Text) | NoMount

  function SplitMountDrive(p: Text): Mount {
    if !HasPrefix(p, "/mnt/") then NoMount
    else
      var rem := p[5..];
      if rem == "" || !IsLetter(rem[0]) then NoMount
      else if |rem| > 1 && rem[1] != '/' then NoMount
      else Mount(Lower(rem[0]), rem[1..])
  }

  /** `distro` is the value of WSL_DISTRO_NAME, empty when unset. */
  function WSLToWindows(p: Text, distro: Text): Result {
    if p == "" then Err(EmptyPath)
    else
      var host := if IsWindowsPath(p) then WindowsToWSL(p) else Ok(p);
      if host.Err? then host
      else if !HasPrefix(host.path, "/") then Err(NotAbsolute)
      else
        var clean := Clean(host.path);
        match SplitMountDrive(clean)
        case Mount(drive, rest) => Ok([Upper(drive)] + ":\\" + ToBackslash(TrimPrefix(rest, "/")))
        case NoMount =>
          if distro == "" then Err(NoDistro)
          else Ok("\\\\wsl.localhost\\" + distro + ToBackslash(clean))
  }

  function Normalize(p: Text): Text {
    if p == "" then p
    else if IsWindowsPath(p) && WindowsToWSL(p).Ok? then WindowsToWSL(p).path
    else Clean(ToSlash(p))
  }

  // ------------------------------------------------------------ bytes in paths

  predicate Free(s: Text, b: Byte) {
    forall i | 0 <= i < |s| :: s[i] != b
  }

  ghost predicate AllFree(cs: seq<Text>, b: Byte) {
    forall i | 0 <= i < |cs| :: Free(cs[i], b)
  }

  lemma {:induction false} SplitFree(s: Text, b: Byte)
    requires Free(s, b)
    ensures AllFree(Split(s), b)
  {
    if s != "" {
      SplitFree(s[1..], b);
    }
  }

  lemma {:induction false} JoinFree(cs: seq<Text>, b: Byte)
    requires AllFree(cs, b) && b != '/'
    ensures Free(Join(cs), b)
  {
    if |cs| > 1 {
      JoinFree(cs[1..], b);
    }
  }

  lemma {:induction false} FreeJoin(cs: seq<Text>, b: Byte)
    requires Free(Join(cs), b)
    ensures AllFree(cs, b)
  {
    if |cs| > 1 {
      var first, rest := cs[0] + "/", Join(cs[1..]);
      assert forall i | 0 <= i < |rest| :: rest[i] == Join(cs)[|first| + i];
      assert forall i | 0 <= i < |cs[0]| :: cs[0][i] == Join(cs)[i];
      FreeJoin(cs[1..], b);
      assert forall i | 0 < i < |cs| :: cs[i] == cs[1..][i - 1];
    }
  }

  lemma {:induction false} ResolveFree(stack: seq<Text>, cs: seq<Text>, rooted: bool, b: Byte)
    requires AllFree(stack, b) && AllFree(cs, b) && b != '.'
    ensures AllFree(Resolve(stack, cs, rooted), b)
    decreases |cs|
  {
    if cs != [] {
      ResolveFree(Push(stack, cs[0], rooted), cs[1..], rooted, b);
    }
  }

  /** Cleaning brings in no byte but slashes and dots. */
  lemma CleanFree(p: Text, b: Byte)
    requires Free(p, b) && b != '/' && b != '.'
    ensures Free(Clean(p), b)
  {
    SplitFree(p, b);
    ResolveFree([], Split(p), true, b);
    ResolveFree([], Split(p), false, b);
    JoinFree(Resolve([], Split(p), true), b);
    JoinFree(Resolve([], Split(p), false), b);
  }

  lemma ToSlashFree(s: Text)
    ensures Free(ToSlash(s), '\\')
  {
  }

  lemma SlashBack(s: Text)
    requires Free(s, '\\')
    ensures ToSlash(ToBackslash(s)) == s
  {
  }

  lemma ToSlashAppend(s: Text, t: Text)
    ensures ToSlash(s + t) == ToSlash(s) + ToSlash(t)
  {
  }

  // -------------------------------------------------------- Windows to POSIX

  predicate Separator(c: Byte) {
    c == '/' || c == '\\'
  }

  predicate SeparatorFree(s: Text) {
    Free(s, '/') && Free(s, '\\')
  }

  lemma FreeIsAbsent(s: Text, b: Byte)
    ensures Free(s, b) <==> b !in s
  {
  }

  lemma ResolveLeadingSlash(stack: seq<Text>, s: Text)
    ensures Resolve(stack, Split("/" + s), true) == Resolve(stack, Split(s), true)
  {
  }

  /** The components below a drive, resolved under its mount point. */
  function DriveComponents(drive: Byte, tail: Text): seq<Text> {
    Resolve(["mnt", [Lower(drive)]], Split(ToSlash(tail)), true)
  }

  lemma SplitDriveText(drive: Byte, u: Text)
    requires IsLetter(drive)
    ensures Split("mnt" + "/" + ([drive] + "/" + u)) == ["mnt", [drive]] + Split(u)
  {
    SplitFirst("mnt", [drive] + "/" + u);
    SplitFirst([drive], u);
    assert ["mnt"] + ([[drive]] + Split(u)) == ["mnt", [drive]] + Split(u);
  }

  lemma MountText(drive: Byte, u: Text)
    ensures "/mnt/" + [drive] + "/" + u == "/" + ("mnt" + "/" + ([drive] + "/" + u))
  {
  }

  lemma ResolveUnderMount(drive: Byte, cs: seq<Text>)
    requires IsLetter(drive)
    ensures Resolve([], ["mnt", [drive]] + cs, true) == Resolve(["mnt", [drive]], cs, true)
  {
    var mount := ["mnt", [drive]];
    ResolveAppend([], mount, cs, true);
    assert [] + mount == mount;
    ResolveKeeps([], mount, true);
  }

  lemma CleanBelow(p: Text, below: Text, cs: seq<Text>)
    requires p == "/" + below && Split(below) == cs
    ensures Clean(p) == Abs(Resolve([], cs, true))
  {
    CleanRooted(below);
  }

  lemma ResolveMount(drive: Byte, u: Text)
    requires IsLetter(drive)
    ensures Clean("/mnt/" + [drive] + "/" + u) == Abs(Resolve(["mnt", [drive]], Split(u), true))
  {
    MountText(drive, u);
    SplitDriveText(drive, u);
    CleanBelow("/mnt/" + [drive] + "/" + u, "mnt" + "/" + ([drive] + "/" + u), ["mnt", [drive]] + Split(u));
    ResolveUnderMount(drive, Split(u));
  }

  /** What is left of a drive path once the separator after the colon is gone. */
  function DriveRest(sep: Byte, tail: Text): Text {
    TrimPrefix(TrimPrefix([sep] + tail, "\\"), "/")
  }

  lemma DriveRestIs(sep: Byte, tail: Text)
    requires Separator(sep)
    ensures DriveRest(sep, tail) == tail || (tail != "" && tail[0] == '/' && DriveRest(sep, tail) == tail[1..])
  {
  }

  lemma DriveConversion(drive: Byte, sep: Byte, tail: Text)
    requires IsLetter(drive) && Separator(sep)
    ensures IsDriveLetterPath([drive, ':', sep] + tail) && !IsUNCPath([drive, ':', sep] + tail)
    ensures WindowsToWSL([drive, ':', sep] + tail)
         == Ok(Clean("/mnt/" + [Lower(drive)] + "/" + ToSlash(DriveRest(sep, tail))))
  {
  }

  lemma ResolveDriveRest(stack: seq<Text>, sep: Byte, tail: Text)
    requires Separator(sep)
    ensures Resolve(stack, Split(ToSlash(DriveRest(sep, tail))), true) == Resolve(stack, Split(ToSlash(tail)), true)
  {
    var rest := DriveRest(sep, tail);
    DriveRestIs(sep, tail);
    if rest != tail {
      assert ToSlash(tail) == "/" + ToSlash(rest);
      ResolveLeadingSlash(stack, ToSlash(rest));
    }
  }

  /** A drive path of any spelling: either separator, either case of the letter. */
  lemma DriveToWSL(drive: Byte, sep: Byte, tail: Text)
    requires IsLetter(drive) && Separator(sep)
    ensures WindowsToWSL([drive, ':', sep] + tail) == Ok(Abs(DriveComponents(drive, tail)))
  {
    DriveConversion(drive, sep, tail);
    ResolveMount(Lower(drive), ToSlash(DriveRest(sep, tail)));
    ResolveDriveRest(["mnt", [Lower(drive)]], sep, tail);
  }

  /** A drive path stays below its mount exactly if its components, resolved by
      themselves, do not lead upwards, or lead up and down into the mount again.
      Otherwise it leaves the drive: nothing stops `..` at the mount point. */
  lemma DriveStays(drive: Byte, tail: Text)
    requires IsLetter(drive)
    ensures var mount, r := ["mnt", [Lower(drive)]], Resolve([], Split(ToSlash(tail)), false);
            var up, down := Ups(r), r[Ups(r)..];
            && DriveComponents(drive, tail) == (if up == 0 then mount else if up == 1 then ["mnt"] else []) + down
            && (mount <= DriveComponents(drive, tail) <==>
                || up == 0
                || (up == 1 && down != [] && down[0] == mount[1])
                || (up >= 2 && mount <= down))
  {
    var mount := ["mnt", [Lower(drive)]];
    DriveOnto(drive, tail);
    StaysBelow(mount, Resolve([], Split(ToSlash(tail)), false));
    assert mount[..1] == ["mnt"];
  }

  lemma DriveOnto(drive: Byte, tail: Text)
    requires IsLetter(drive)
    ensures var mount, r := ["mnt", [Lower(drive)]], Resolve([], Split(ToSlash(tail)), false);
            DriveComponents(drive, tail) == Onto(mount, r)
  {
    var mount := ["mnt", [Lower(drive)]];
    ResolveOnto(mount, [], Split(ToSlash(tail)));
    assert Onto(mount, []) == mount;
  }

  lemma StaysBelow(mount: seq<Text>, r: seq<Text>)
    requires |mount| == 2
    ensures var up, down := Ups(r), r[Ups(r)..];
            && Onto(mount, r) == (if up == 0 then mount else if up == 1 then mount[..1] else []) + down
            && (mount <= Onto(mount, r) <==>
                || up == 0
                || (up == 1 && down != [] && down[0] == mount[1])
                || (up >= 2 && mount <= down))
  {
  }

  lemma SplitUp(u: Text)
    ensures Split("../" + u) == [".."] + Split(u)
  {
    SplitFirst("..", u);
    assert ".." + "/" + u == "../" + u;
  }

  lemma ClimbToRoot(mount: seq<Text>, cs: seq<Text>)
    requires |mount| == 2 && mount[0] != ".." && mount[1] != ".."
    ensures Resolve(mount, [".."] + ([".."] + cs), true) == Resolve([], cs, true)
  {
    assert Push(mount, "..", true) == mount[..1];
    assert Push(mount[..1], "..", true) == [];
    assert ([".."] + ([".."] + cs))[1..] == [".."] + cs && ([".."] + cs)[1..] == cs;
    assert Resolve(mount[..1], [".."] + cs, true) == Resolve([], cs, true);
  }

  /** Two steps up from the top of any drive lead to the root of the host. */
  lemma DriveLeaves(drive: Byte, tail: Text)
    requires IsLetter(drive)
    ensures WindowsToWSL([drive, ':', '/'] + ("../" + ("../" + tail))) == Ok(Clean("/" + ToSlash(tail)))
  {
    DriveToWSL(drive, '/', "../" + ("../" + tail));
    UpTwice(drive, tail);
    CleanRooted(ToSlash(tail));
  }

  lemma UpSlashed(tail: Text)
    ensures Split(ToSlash("../" + tail)) == [".."] + Split(ToSlash(tail))
  {
    ToSlashAppend("../", tail);
    assert ToSlash("../") == "../";
    SplitUp(ToSlash(tail));
  }

  lemma UpTwice(drive: Byte, tail: Text)
    requires IsLetter(drive)
    ensures DriveComponents(drive, "../" + ("../" + tail)) == Resolve([], Split(ToSlash(tail)), true)
  {
    UpSlashed(tail);
    UpSlashed("../" + tail);
    ClimbToRoot(["mnt", [Lower(drive)]], Split(ToSlash(tail)));
  }

  predicate WslServer(server: Text) {
    EqualFold(server, "wsl$") || EqualFold(server, "wsl.localhost")
  }

  lemma ServerName(server: Text)
    requires WslServer(server)
    ensures server != "" && SeparatorFree(server)
    ensures ToLower(server) == "wsl$" || ToLower(server) == "wsl.localhost"
  {
  }

  lemma SeparatorFreeToSlash(s: Text)
    requires SeparatorFree(s)
    ensures ToSlash(s) == s && '/' !in s
  {
  }

  /** `\\\\server\distro` and what is below it: possibly one more separator in front,
      and in the end nothing or a separator and anything. */
  function UncPath(extra: Text, server: Text, sep: Byte, distro: Text, tail: Text): Text {
    "\\\\" + (extra + UncBelow(server, sep, distro, tail))
  }

  function UncBelow(server: Text, sep: Byte, distro: Text, tail: Text): Text {
    server + ([sep] + (distro + tail))
  }

  /** The parts of the path of any share: server and share name are not empty and hold
      no separator. */
  predicate ShareParts(extra: Text, server: Text, sep: Byte, share: Text, tail: Text) {
    && (extra == "" || extra == "/" || extra == "\\") && server != "" && SeparatorFree(server) && Separator(sep)
    && share != "" && SeparatorFree(share) && (tail == "" || Separator(tail[0]))
  }

  predicate UncParts(extra: Text, server: Text, sep: Byte, distro: Text, tail: Text) {
    && (extra == "" || extra == "/" || extra == "\\") && WslServer(server) && Separator(sep)
    && distro != "" && SeparatorFree(distro) && (tail == "" || Separator(tail[0]))
  }

  /** The components below the distro. */
  function UncSegments(tail: Text): seq<Text> {
    if tail == "" then [] else Split(ToSlash(tail)[1..])
  }

  lemma UncSlashed(server: Text, sep: Byte, distro: Text, tail: Text)
    requires ShareParts("", server, sep, distro, tail)
    ensures ToSlash(UncBelow(server, sep, distro, tail)) == server + "/" + (distro + ToSlash(tail))
  {
    SeparatorFreeToSlash(server);
    SeparatorFreeToSlash(distro);
    ToSlashAppend(distro, tail);
    ToSlashAppend([sep], distro + tail);
    ToSlashAppend(server, [sep] + (distro + tail));
    assert ToSlash([sep]) == "/";
  }

  lemma UncSplit(server: Text, sep: Byte, distro: Text, tail: Text)
    requires ShareParts("", server, sep, distro, tail)
    ensures Split(ToSlash(UncBelow(server, sep, distro, tail))) == [server, distro] + UncSegments(tail)
  {
    UncSlashed(server, sep, distro, tail);
    SplitFirst(server, distro + ToSlash(tail));
    if tail == "" {
      assert distro + ToSlash(tail) == distro;
      SplitComponent(distro);
    } else {
      assert distro + ToSlash(tail) == distro + "/" + ToSlash(tail)[1..];
      SplitFirst(distro, ToSlash(tail)[1..]);
    }
  }

  lemma TrimBackslashes(rest: Text)
    ensures TrimPrefix("\\\\" + rest, "\\\\") == rest
  {
    SplitAt<Byte>("\\\\", rest);
  }

  lemma TrimExtra(extra: Text, c: Text)
    requires (extra == "" || extra == "/" || extra == "\\") && c != "" && !Separator(c[0])
    ensures TrimPrefix(ToSlash(extra + c), "/") == ToSlash(c)
  {
    ToSlashAppend(extra, c);
    assert ToSlash(c)[0] == c[0];
    if extra == "" {
      assert ToSlash(extra) + ToSlash(c) == ToSlash(c);
    } else {
      assert ToSlash(extra) == "/";
      SplitAt<Byte>("/", ToSlash(c));
    }
  }

  lemma UncTrimmed(extra: Text, server: Text, sep: Byte, distro: Text, tail: Text)
    requires ShareParts(extra, server, sep, distro, tail)
    ensures TrimPrefix(ToSlash(TrimPrefix(UncPath(extra, server, sep, distro, tail), "\\\\")), "/")
         == ToSlash(UncBelow(server, sep, distro, tail))
  {
    var c := UncBelow(server, sep, distro, tail);
    assert c[0] == server[0];
    TrimBackslashes(extra + c);
    TrimExtra(extra, c);
  }

  lemma CleanSegments(tail: Text)
    requires tail == "" || Separator(tail[0])
    ensures Clean("/" + Join(UncSegments(tail))) == Clean("/" + ToSlash(tail))
  {
    if tail != "" {
      var rest := ToSlash(tail)[1..];
      assert ToSlash(tail) == "/" + rest;
      JoinSplit(rest);
      CleanRooted(rest);
      CleanRooted("/" + rest);
      ResolveLeadingSlash([], rest);
    }
  }

  lemma ServerIs(server: Text)
    ensures WslServer(server) <==> ToLower(server) == "wsl$" || ToLower(server) == "wsl.localhost"
  {
    if WslServer(server) {
      ServerName(server);
    } else if ToLower(server) == "wsl$" || ToLower(server) == "wsl.localhost" {
      LowerName(server);
    }
  }

  lemma LowerName(server: Text)
    requires ToLower(server) == "wsl$" || ToLower(server) == "wsl.localhost"
    ensures WslServer(server)
  {
    var name := ToLower(server);
    assert |name| == |server|;
    assert forall i | 0 <= i < |server| :: name[i] == Lower(server[i]) && Lower(name[i]) == name[i];
  }

  /** The path of any share: below a WSL distro it leads to the cleaned path there, and
      on any other server it is not supported. */
  lemma ShareToWSL(extra: Text, server: Text, sep: Byte, share: Text, tail: Text)
    requires ShareParts(extra, server, sep, share, tail)
    ensures ConvertUNCToWSL(UncPath(extra, server, sep, share, tail))
         == if WslServer(server) then Ok(Clean("/" + ToSlash(tail))) else Err(UnsupportedUNC)
  {
    UncTrimmed(extra, server, sep, share, tail);
    UncSplit(server, sep, share, tail);
    ServerIs(server);
    SplitAt([server, share], UncSegments(tail));
    CleanSegments(tail);
  }

  /** A WSL UNC path of any spelling leads to the cleaned path below the distro: the
      server in any case, either separator at every place, any distro, a bare
      distro, a third separator in front. */
  lemma UncToWSL(extra: Text, server: Text, sep: Byte, distro: Text, tail: Text)
    requires UncParts(extra, server, sep, distro, tail)
    ensures IsUNCPath(UncPath(extra, server, sep, distro, tail))
    ensures WindowsToWSL(UncPath(extra, server, sep, distro, tail)) == Ok(Clean("/" + ToSlash(tail)))
  {
    ServerName(server);
    ShareToWSL(extra, server, sep, distro, tail);
  }

  /** Spelling independence: all Windows spellings of a place have one normal form,
      and it is a cleaned absolute path. */
  lemma SpellingIndependence(drive: Byte, drive': Byte, sep: Byte, sep': Byte, tail: Text, tail': Text)
    requires IsLetter(drive) && IsLetter(drive') && Lower(drive) == Lower(drive')
    requires Separator(sep) && Separator(sep') && ToSlash(tail) == ToSlash(tail')
    ensures var n := Normalize([drive, ':', sep] + tail);
            n == Normalize([drive', ':', sep'] + tail') && HasPrefix(n, "/") && Clean(n) == n
  {
    DriveToWSL(drive, sep, tail);
    DriveToWSL(drive', sep', tail');
    DriveResolved(drive, tail);
    CleanAbs(DriveComponents(drive, tail));
  }

  lemma DriveResolved(drive: Byte, tail: Text)
    requires IsLetter(drive)
    ensures Resolved(DriveComponents(drive, tail), true)
    ensures AllFree(DriveComponents(drive, tail), '\\')
  {
    var cs := ["mnt", [Lower(drive)]];
    ResolveResolved(cs, Split(ToSlash(tail)), true);
    ToSlashFree(tail);
    SplitFree(ToSlash(tail), '\\');
    ResolveFree(cs, Split(ToSlash(tail)), true, '\\');
  }

  lemma UncNormal(extra: Text, server: Text, sep: Byte, distro: Text, tail: Text)
    requires UncParts(extra, server, sep, distro, tail)
    ensures Normalize(UncPath(extra, server, sep, distro, tail)) == Clean("/" + ToSlash(tail))
  {
    UncToWSL(extra, server, sep, distro, tail);
  }

  /** The same for WSL UNC paths: server, distro, separators and a third separator in
      front may differ independently. */
  lemma UncSpellingIndependence(extra: Text, server: Text, sep: Byte, distro: Text, tail: Text,
                                extra': Text, server': Text, sep': Byte, distro': Text, tail': Text)
    requires UncParts(extra, server, sep, distro, tail) && UncParts(extra', server', sep', distro', tail')
    requires ToSlash(tail) == ToSlash(tail')
    ensures var n := Normalize(UncPath(extra, server, sep, distro, tail));
            n == Normalize(UncPath(extra', server', sep', distro', tail')) && HasPrefix(n, "/") && Clean(n) == n
  {
    UncNormal(extra, server, sep, distro, tail);
    UncNormal(extra', server', sep', distro', tail');
    CleanIdempotent("/" + ToSlash(tail));
    CleanRooted(ToSlash(tail));
  }

  // -------------------------------------------------------- POSIX to Windows

  /** The components of a path on a drive mount. */
  predicate OnMount(cs: seq<Text>) {
    |cs| >= 2 && cs[0] == "mnt" && |cs[1]| == 1 && IsLetter(cs[1][0])
  }

  lemma AbsCons(cs: seq<Text>)
    requires |cs| >= 2
    ensures Abs(cs) == "/" + cs[0] + "/" + Join(cs[1..])
  {
  }

  /** `splitMountDrive` recognises exactly the drive mounts and what is below. */
  lemma SplitMount(cs: seq<Text>)
    requires Resolved(cs, true)
    ensures SplitMountDrive(Abs(cs))
         == if OnMount(cs) then Mount(Lower(cs[1][0]), if |cs| == 2 then "" else "/" + Join(cs[2..])) else NoMount
  {
    if HasPrefix(Abs(cs), "/mnt/") {
      MountPrefix(cs);
      AbsCons(cs);
      assert Abs(cs)[5..] == Join(cs[1..]);
      DriveComponent(cs[1..]);
    } else if OnMount(cs) {
      AbsCons(cs);
    }
  }

  lemma MountPrefix(cs: seq<Text>)
    requires Resolved(cs, true) && HasPrefix(Abs(cs), "/mnt/")
    ensures |cs| >= 2 && cs[0] == "mnt"
  {
    var below := Abs(cs)[5..];
    assert Join(cs) == "mnt" + "/" + below by {
      assert Abs(cs) == "/mnt/" + below;
      assert Join(cs) == Abs(cs)[1..];
    }
    SplitJoin(cs);
    SplitFirst("mnt", below);
  }

  /** The test for a one-letter component at the head of a path. */
  lemma DriveComponent(cs: seq<Text>)
    requires cs != [] && forall i | 0 <= i < |cs| :: Plain(cs[i])
    ensures var rem := Join(cs);
            && cs[0] != "" && rem != "" && rem[0] == cs[0][0]
            && ((|rem| == 1 || rem[1] == '/') <==> |cs[0]| == 1)
            && (|cs[0]| == 1 ==> rem[1..] == if |cs| == 1 then "" else "/" + Join(cs[1..]))
  {
  }

  /** `X:\a\b` for the components `a`, `b`. */
  function DrivePath(drive: Byte, cs: seq<Text>): Text {
    [drive, ':', '\\'] + ToBackslash(Join(cs))
  }

  function DistroPath(distro: Text, cs: seq<Text>): Text {
    UncPath("", "wsl.localhost", '\\', distro, ToBackslash(Abs(cs)))
  }

  /** What an absolute host path turns into, component by component. */
  lemma HostToWindows(host: Text, cs: seq<Text>, distro: Text)
    requires HasPrefix(host, "/") && Resolved(cs, true) && Clean(host) == Abs(cs)
    ensures WSLToWindows(host, distro)
         == if OnMount(cs) then Ok(DrivePath(Upper(cs[1][0]), cs[2..]))
            else if distro == "" then Err(NoDistro)
            else Ok(DistroPath(distro, cs))
  {
    SplitMount(cs);
    HostUnfolds(host, distro);
    if OnMount(cs) {
      MountPathText(Lower(cs[1][0]), cs[2..]);
      assert Upper(Lower(cs[1][0])) == Upper(cs[1][0]);
    } else {
      DistroPathText(distro, cs);
    }
  }

  lemma HostUnfolds(host: Text, distro: Text)
    requires HasPrefix(host, "/")
    ensures WSLToWindows(host, distro)
         == match SplitMountDrive(Clean(host))
            case Mount(drive, rest) => Ok([Upper(drive)] + ":\\" + ToBackslash(TrimPrefix(rest, "/")))
            case NoMount =>
              if distro == "" then Err(NoDistro) else Ok("\\\\wsl.localhost\\" + distro + ToBackslash(Clean(host)))
  {
  }

  lemma MountPathText(drive: Byte, rest: seq<Text>)
    ensures [Upper(drive)] + ":\\" + ToBackslash(TrimPrefix(if rest == [] then "" else "/" + Join(rest), "/"))
         == DrivePath(Upper(drive), rest)
  {
  }

  lemma DistroPathText(distro: Text, cs: seq<Text>)
    ensures "\\\\wsl.localhost\\" + distro + ToBackslash(Abs(cs)) == DistroPath(distro, cs)
  {
  }

  lemma ResolveJoined(stack: seq<Text>, cs: seq<Text>)
    requires Resolved(stack + cs, true)
    ensures Resolve(stack, Split(Join(cs)), true) == stack + cs
  {
    if cs == [] {
      assert Split("") == [""];
      assert Resolve(stack, [""], true) == stack;
    } else {
      forall i | 0 <= i < |cs| ensures '/' !in cs[i] {
        assert Plain((stack + cs)[|stack| + i]);
      }
      SplitJoin(cs);
      ResolveKeeps(stack, cs, true);
    }
  }

  /** A canonical drive path is where it says it is. */
  lemma DrivePathToWSL(drive: Byte, cs: seq<Text>)
    requires IsLetter(drive) && AllFree(cs, '\\') && Resolved(["mnt", [Lower(drive)]] + cs, true)
    ensures WindowsToWSL(DrivePath(drive, cs)) == Ok(Abs(["mnt", [Lower(drive)]] + cs))
  {
    DriveToWSL(drive, '\\', ToBackslash(Join(cs)));
    JoinFree(cs, '\\');
    SlashBack(Join(cs));
    ResolveJoined(["mnt", [Lower(drive)]], cs);
  }

  lemma DistroPathToWSL(distro: Text, cs: seq<Text>)
    requires distro != "" && SeparatorFree(distro) && AllFree(cs, '\\') && Resolved(cs, true)
    ensures WindowsToWSL(DistroPath(distro, cs)) == Ok(Abs(cs))
  {
    DistroPathLeads(distro, cs);
    JoinFree(cs, '\\');
    assert ToSlash(Abs(cs)) == Abs(cs);
    CleanAbs(cs);
  }

  /** The way back from a distro path, backslashes in its components included. */
  lemma DistroPathLeads(distro: Text, cs: seq<Text>)
    requires distro != "" && SeparatorFree(distro)
    ensures IsWindowsPath(DistroPath(distro, cs)) && WindowsToWSL(DistroPath(distro, cs)) == Ok(Clean(ToSlash(Abs(cs))))
  {
    var u := ToSlash(Abs(cs));
    UncToWSL("", "wsl.localhost", '\\', distro, ToBackslash(Abs(cs)));
    assert ToSlash(ToBackslash(Abs(cs))) == u;
    assert u == "/" + u[1..];
    CleanRooted(u[1..]);
    CleanRooted(u);
    ResolveLeadingSlash([], u[1..]);
  }

  // ------------------------------------------------------------- round trips

  function LowerMount(cs: seq<Text>): seq<Text> {
    if OnMount(cs) then ["mnt", [Lower(cs[1][0])]] + cs[2..] else cs
  }

  lemma LowerMountResolved(cs: seq<Text>)
    requires Resolved(cs, true)
    ensures Resolved(LowerMount(cs), true) && OnMount(LowerMount(cs)) == OnMount(cs)
    ensures OnMount(cs) ==> LowerMount(cs)[2..] == cs[2..]
    ensures OnMount(cs) ==> Upper(LowerMount(cs)[1][0]) == Upper(cs[1][0])
  {
  }

  /** There and back for components free of backslashes. */
  lemma BackFromWindows(host: Text, cs: seq<Text>, distro: Text)
    requires HasPrefix(host, "/") && Resolved(cs, true) && Clean(host) == Abs(cs) && AllFree(cs, '\\')
    requires SeparatorFree(distro) && WSLToWindows(host, distro).Ok?
    ensures WindowsToWSL(WSLToWindows(host, distro).path) == Ok(Abs(LowerMount(cs)))
  {
    HostToWindows(host, cs, distro);
    if OnMount(cs) {
      LowerMountResolved(cs);
      assert Lower(Upper(cs[1][0])) == Lower(cs[1][0]);
      DrivePathToWSL(Upper(cs[1][0]), cs[2..]);
    } else {
      DistroPathToWSL(distro, cs);
    }
  }

  /** The path with the letter of a drive mount in lower case. */
  function LowerDrive(p: Text): Text {
    match SplitMountDrive(p)
    case Mount(drive, rest) => "/mnt/" + [drive] + rest
    case NoMount => p
  }

  lemma JoinCons(c: Text, cs: seq<Text>)
    ensures Join([c] + cs) == if cs == [] then c else c + "/" + Join(cs)
  {
  }

  lemma MountAbs(drive: Byte, rest: seq<Text>)
    ensures Abs(["mnt", [drive]] + rest) == "/mnt/" + [drive] + (if rest == [] then "" else "/" + Join(rest))
  {
    var below := [[drive]] + rest;
    assert ["mnt", [drive]] + rest == ["mnt"] + below;
    JoinCons("mnt", below);
    JoinCons([drive], rest);
    Regroup(Join(below), [drive], if rest == [] then "" else "/" + Join(rest));
  }

  lemma Regroup(below: Text, drive: Text, rest: Text)
    requires below == drive + rest
    ensures "/" + ("mnt" + "/" + below) == "/mnt/" + drive + rest
  {
  }

  lemma LowerDriveAbs(cs: seq<Text>)
    requires Resolved(cs, true)
    ensures LowerDrive(Abs(cs)) == Abs(LowerMount(cs))
  {
    SplitMount(cs);
    if OnMount(cs) {
      MountAbs(Lower(cs[1][0]), cs[2..]);
    }
  }

  lemma LowerDriveFree(p: Text)
    ensures Free(LowerDrive(p), '\\') <==> Free(p, '\\')
  {
    if SplitMountDrive(p).Mount? {
      var q := LowerDrive(p);
      assert |q| == |p| && p[..5] == "/mnt/";
      assert forall i | 0 <= i < |p| && i != 5 :: q[i] == p[i];
    }
  }

  /** A converted Windows path is a cleaned rooted path without backslashes. */
  lemma WindowsToWSLCanonical(p: Text)
    requires WindowsToWSL(p).Ok?
    ensures var q := WindowsToWSL(p).path; HasPrefix(q, "/") && Clean(q) == q
    ensures IsWindowsPath(p) ==> Free(WindowsToWSL(p).path, '\\')
  {
    if IsUNCPath(p) {
      UncCanonical(p);
    } else if HasPrefix(p, "/") {
      CleanCanonical(p);
    } else {
      var rest := TrimPrefix(TrimPrefix(p[2..], "\\"), "/");
      MountCanonical(Lower(p[0]), rest);
    }
  }

  lemma MountCanonical(drive: Byte, rest: Text)
    requires IsLetter(drive)
    ensures var q := Clean("/mnt/" + [drive] + "/" + ToSlash(rest)); HasPrefix(q, "/") && Clean(q) == q && Free(q, '\\')
  {
    var path := "/mnt/" + [drive] + "/" + ToSlash(rest);
    ToSlashFree(rest);
    assert path[0] == '/';
    CleanCanonical(path);
  }

  lemma UncCanonical(p: Text)
    requires ConvertUNCToWSL(p).Ok?
    ensures var q := ConvertUNCToWSL(p).path; HasPrefix(q, "/") && Clean(q) == q && Free(q, '\\')
  {
    var segments := Split(TrimPrefix(ToSlash(TrimPrefix(p, "\\\\")), "/"));
    UncFree(p);
    CleanCanonical("/" + Join(segments[2..]));
  }

  lemma CleanCanonical(path: Text)
    requires HasPrefix(path, "/")
    ensures HasPrefix(Clean(path), "/") && Clean(Clean(path)) == Clean(path)
    ensures Free(path, '\\') ==> Free(Clean(path), '\\')
  {
    CleanRoot(path);
    CleanIdempotent(path);
    if Free(path, '\\') {
      CleanFree(path, '\\');
    }
  }

  lemma UncFree(p: Text)
    ensures var segments := Split(TrimPrefix(ToSlash(TrimPrefix(p, "\\\\")), "/"));
            |segments| >= 2 ==> Free(Join(segments[2..]), '\\')
  {
    var trimmed := TrimPrefix(ToSlash(TrimPrefix(p, "\\\\")), "/");
    ToSlashFree(TrimPrefix(p, "\\\\"));
    SplitFree(trimmed, '\\');
    if |Split(trimmed)| >= 2 {
      JoinFree(Split(trimmed)[2..], '\\');
    }
  }

  lemma WindowsResult(host: Text, cs: seq<Text>, distro: Text)
    requires HasPrefix(host, "/") && Resolved(cs, true) && Clean(host) == Abs(cs)
    requires WSLToWindows(host, distro).Ok?
    ensures IsWindowsPath(WSLToWindows(host, distro).path)
  {
  }

  /** POSIX to Windows and back, for every absolute path: it gives the cleaned path
      with a mount's drive letter in lower case if and only if no backslash is left
      in the cleaned path. A path on a drive mount needs no distro name. */
  lemma WslRoundTrip(p: Text, distro: Text)
    requires HasPrefix(p, "/") && SeparatorFree(distro)
    requires distro != "" || SplitMountDrive(Clean(p)).Mount?
    ensures WSLToWindows(p, distro).Ok?
    ensures WindowsToWSL(WSLToWindows(p, distro).path) == Ok(LowerDrive(Clean(p))) <==> '\\' !in Clean(p)
  {
    var cs := CleanIsAbs(p);
    SplitMount(cs);
    HostToWindows(p, cs, distro);
    var w := WSLToWindows(p, distro).path;
    FreeIsAbsent(Clean(p), '\\');
    if Free(Clean(p), '\\') {
      assert Free(Join(cs), '\\') by {
        assert forall i | 0 <= i < |Join(cs)| :: Join(cs)[i] == Abs(cs)[i + 1];
      }
      FreeJoin(cs, '\\');
      BackFromWindows(p, cs, distro);
      LowerDriveAbs(cs);
    } else {
      WindowsResult(p, cs, distro);
      LowerDriveFree(Clean(p));
      NotCanonical(w, LowerDrive(Clean(p)));
    }
  }

  lemma NotCanonical(w: Text, q: Text)
    requires IsWindowsPath(w) && !Free(q, '\\')
    ensures WindowsToWSL(w) != Ok(q)
  {
    if WindowsToWSL(w).Ok? {
      WindowsToWSLCanonical(w);
    }
  }

  // -------------------------------------------------------------- idempotence

  /** A normal form has no backslash and is cleaned, unless the input is empty. */
  lemma NormalizeCanonical(p: Text)
    ensures Free(Normalize(p), '\\')
    ensures p != "" ==> Normalize(p) != "" && Clean(Normalize(p)) == Normalize(p)
  {
    if IsWindowsPath(p) && WindowsToWSL(p).Ok? {
      WindowsToWSLCanonical(p);
    } else {
      ToSlashFree(p);
      CleanFree(ToSlash(p), '\\');
      CleanRoot(ToSlash(p));
      CleanIdempotent(ToSlash(p));
    }
  }

  lemma ToSlashSame(s: Text)
    requires Free(s, '\\')
    ensures ToSlash(s) == s && !IsUNCPath(s)
  {
    var prefix: Text := "\\\\";
    assert prefix[0] == '\\';
    assert s != "" ==> s[0] != prefix[0];
  }

  lemma NormalizeAgain(p: Text)
    ensures var n := Normalize(p); Normalize(n) == n <==> !(IsDriveLetterPath(n) && |n| > 2)
    ensures HasPrefix(Normalize(p), "/") ==> Normalize(Normalize(p)) == Normalize(p)
  {
    var n := Normalize(p);
    NormalizeCanonical(p);
    ToSlashSame(n);
    if IsDriveLetterPath(n) && |n| > 2 {
      DrivePathConverts(n);
    }
  }

  /** The name of a drive as a component. */
  predicate DriveName(c: Text) {
    |c| == 2 && IsLetter(c[0]) && c[1] == ':'
  }

  /** A relative path, not itself spelled as a drive path, whose components resolve to
      the name of a drive and something below it. */
  predicate UncoversDrive(p: Text) {
    && p != "" && !Separator(p[0]) && !IsDriveLetterPath(p)
    && var cs := Resolve([], Split(ToSlash(p)), false);
       |cs| >= 2 && DriveName(cs[0])
  }

  lemma JoinDrive(cs: seq<Text>)
    requires cs != [] && forall i | 0 <= i < |cs| :: Plain(cs[i])
    requires Free(Join(cs), '\\')
    ensures IsDriveLetterPath(Join(cs)) && |Join(cs)| > 2 <==> |cs| >= 2 && DriveName(cs[0])
  {
    var n, c := Join(cs), cs[0];
    assert forall i | 0 <= i < |c| :: n[i] == c[i] && c[i] in c;
    if |cs| > 1 {
      assert n[|c|] == '/';
    }
  }

  lemma UncoversDriveIff(p: Text)
    ensures IsDriveLetterPath(Normalize(p)) && |Normalize(p)| > 2 <==> UncoversDrive(p)
  {
    DriveDomain(p);
    if p == "" || Separator(p[0]) || DriveSpelled(p) {
      NormalizeRooted(p);
    } else {
      var cs := Resolve([], Split(ToSlash(p)), false);
      ResolveResolved([], Split(ToSlash(p)), false);
      NormalizeCanonical(p);
      assert Normalize(p) == Clean(ToSlash(p));
      if cs != [] {
        JoinDrive(cs);
      }
      if IsDriveLetterPath(p) {
        BareDriveAlone(p);
      }
    }
  }

  lemma BareDriveAlone(p: Text)
    requires IsDriveLetterPath(p) && !DriveSpelled(p)
    ensures |Resolve([], Split(ToSlash(p)), false)| == 1
  {
    DriveDomain(p);
    assert ToSlash(p) == p && '/' !in p;
    SplitComponent(p);
    assert Resolve(Push([], p, false), [], false) == [p];
  }

  /** What begins with a separator or converts as a drive path has an absolute normal
      form. */
  lemma NormalizeRooted(p: Text)
    requires p == "" || Separator(p[0]) || DriveSpelled(p)
    ensures p == "" || HasPrefix(Normalize(p), "/")
  {
    DriveDomain(p);
    if p != "" && IsWindowsPath(p) && WindowsToWSL(p).Ok? {
      WindowsToWSLCanonical(p);
    } else if p != "" {
      assert ToSlash(p)[0] == '/';
      CleanRoot(ToSlash(p));
    }
  }

  /** Normalising twice is normalising once for exactly those paths that do not, on
      being cleaned, uncover the name of a drive at their front; in particular
      whenever the normal form is absolute. */
  lemma NormalizeIdempotent(p: Text)
    ensures Normalize(Normalize(p)) == Normalize(p) <==> !UncoversDrive(p)
    ensures var n := Normalize(p); Normalize(n) == n <==> !(IsDriveLetterPath(n) && |n| > 2)
    ensures HasPrefix(Normalize(p), "/") ==> Normalize(Normalize(p)) == Normalize(p)
  {
    NormalizeAgain(p);
    UncoversDriveIff(p);
  }

  lemma DrivePathConverts(p: Text)
    requires IsDriveLetterPath(p) && |p| > 2
    ensures WindowsToWSL(p).Ok? && WindowsToWSL(p).path != p
  {
  }

  /** The documented idempotence fails on a relative path that cleans to a drive
      path. */
  lemma NormalizeNotIdempotent()
    ensures Normalize("./C:/x") == "C:/x" && Normalize("C:/x") == "/mnt/c/x"
  {
    CleanExample();
    DriveExample();
  }

  lemma DriveExample()
    ensures Normalize("C:/x") == "/mnt/c/x"
  {
    ResolveExample();
    DriveToWSL('C', '/', "x");
    assert ['C', ':', '/'] + "x" == "C:/x";
    DriveExampleComponents();
  }

  lemma DriveExampleComponents()
    ensures Abs(DriveComponents('C', "x")) == "/mnt/c/x"
  {
    SplitComponent("x");
    assert ToSlash("x") == "x";
    ResolveExample();
    assert Abs(["mnt", "c", "x"]) == "/mnt/c/x";
  }

  lemma CleanExample()
    ensures ToSlash("./C:/x") == "./C:/x" && Clean("./C:/x") == "C:/x"
  {
    SplitExample();
    ResolveExample();
  }

  lemma SplitExample()
    ensures Split("./C:/x") == [".", "C:", "x"]
  {
    SplitComponent("x");
    SplitFirst("C:", "x");
    SplitFirst(".", "C:/x");
    assert "C:" + "/" + "x" == "C:/x" && "." + "/" + "C:/x" == "./C:/x";
  }

  lemma ResolveExample()
    ensures Resolve([], [".", "C:", "x"], false) == ["C:", "x"]
    ensures Resolve(["mnt", "c"], ["x"], true) == ["mnt", "c", "x"]
    ensures Join(["C:", "x"]) == "C:/x"
  {
  }

  /** The components of a text, all of them in their final place. */
  ghost predicate Settled(s: Text) {
    s == "" || Resolved(Split(s), true)
  }

  lemma ToBackslashEqual(s: Text, t: Text)
    requires Free(s, '\\')
    ensures ToBackslash(s) == ToBackslash(t) <==> s == ToSlash(t)
  {
    if ToBackslash(s) == ToBackslash(t) {
      SlashBack(s);
      assert ToSlash(ToBackslash(t)) == ToSlash(t);
    }
  }

  /** Where a drive path leads when backslashes in its components are read as the
      separators they have become. */
  function BelowMount(drive: Byte, cs: seq<Text>): seq<Text> {
    DriveComponents(drive, Join(cs))
  }

  lemma DrivePathLeads(drive: Byte, cs: seq<Text>)
    requires IsLetter(drive)
    ensures IsWindowsPath(DrivePath(drive, cs)) && WindowsToWSL(DrivePath(drive, cs)) == Ok(Abs(BelowMount(drive, cs)))
  {
    DriveToWSL(drive, '\\', ToBackslash(Join(cs)));
    assert ToSlash(ToBackslash(Join(cs))) == ToSlash(Join(cs));
  }

  lemma SettledBelow(drive: Byte, s: Text)
    requires IsLetter(drive) && Settled(s)
    ensures var ds := Resolve(["mnt", [Lower(drive)]], Split(s), true);
            OnMount(ds) && ds[1] == [Lower(drive)] && Join(ds[2..]) == s
  {
    var mount := ["mnt", [Lower(drive)]];
    if s == "" {
      assert Split("") == [""] && Resolve(mount, [""], true) == mount;
    } else {
      MountResolved(drive, Split(s));
      ResolveKeeps(mount, Split(s), true);
      JoinSplit(s);
    }
  }

  lemma BelowSettled(ds: seq<Text>)
    requires Resolved(ds, true)
    ensures Settled(Join(ds))
  {
    if ds != [] {
      SplitJoin(ds);
    }
  }

  lemma SameDrivePath(drive: Byte, cs: seq<Text>, drive': Byte, cs': seq<Text>)
    ensures DrivePath(drive, cs) == DrivePath(drive', cs') <==>
            drive == drive' && ToBackslash(Join(cs)) == ToBackslash(Join(cs'))
  {
    assert DrivePath(drive, cs)[0] == drive && DrivePath(drive, cs)[3..] == ToBackslash(Join(cs));
    assert DrivePath(drive', cs')[0] == drive' && DrivePath(drive', cs')[3..] == ToBackslash(Join(cs'));
  }

  lemma DrivePathAgain(drive: Byte, cs: seq<Text>, distro: Text)
    requires IsLetter(drive)
    ensures var ds := BelowMount(drive, cs);
            Resolved(ds, true) && AllFree(ds, '\\') && WSLToWindows(DrivePath(drive, cs), distro) == WSLToWindows(Abs(ds), distro)
  {
    DrivePathLeads(drive, cs);
    DriveResolved(drive, Join(cs));
    ViaHost(DrivePath(drive, cs), Abs(BelowMount(drive, cs)), distro);
  }

  lemma IsDrivePath(ds: seq<Text>, drive: Byte, cs: seq<Text>, distro: Text)
    requires Resolved(ds, true) && AllFree(ds, '\\') && IsLetter(drive)
    ensures WSLToWindows(Abs(ds), distro) == Ok(DrivePath(drive, cs)) <==>
            OnMount(ds) && Upper(ds[1][0]) == drive && Join(ds[2..]) == ToSlash(Join(cs))
  {
    CleanAbs(ds);
    HostToWindows(Abs(ds), ds, distro);
    if OnMount(ds) {
      JoinFree(ds[2..], '\\');
      ToBackslashEqual(Join(ds[2..]), Join(cs));
      SameDrivePath(Upper(ds[1][0]), ds[2..], drive, cs);
    } else {
      assert DrivePath(drive, cs)[0] == drive;
    }
  }

  lemma BelowMountIff(drive: Byte, cs: seq<Text>)
    requires 'A' <= drive <= 'Z'
    ensures var ds, s := BelowMount(drive, cs), ToSlash(Join(cs));
            OnMount(ds) && Upper(ds[1][0]) == drive && Join(ds[2..]) == s <==> Settled(s)
  {
    var ds, s := BelowMount(drive, cs), ToSlash(Join(cs));
    DriveResolved(drive, Join(cs));
    if Settled(s) {
      SettledBelow(drive, s);
      assert ds[1][0] == Lower(drive) && Upper(Lower(drive)) == drive;
    } else if OnMount(ds) {
      BelowSettled(ds[2..]);
    }
  }

  /** A drive path with its letter in upper case is left alone if and only if the text
      below the drive is settled. */
  lemma DrivePathStable(drive: Byte, cs: seq<Text>, distro: Text)
    requires 'A' <= drive <= 'Z'
    ensures WSLToWindows(DrivePath(drive, cs), distro) == Ok(DrivePath(drive, cs)) <==> Settled(ToSlash(Join(cs)))
  {
    DrivePathAgain(drive, cs, distro);
    IsDrivePath(BelowMount(drive, cs), drive, cs, distro);
    BelowMountIff(drive, cs);
  }

  lemma DistroPathStable(distro: Text, cs: seq<Text>)
    requires distro != "" && SeparatorFree(distro)
    ensures var u := ToSlash(Abs(cs));
            WSLToWindows(DistroPath(distro, cs), distro) == Ok(DistroPath(distro, cs)) <==>
              Clean(u) == u && SplitMountDrive(u).NoMount?
  {
    var u := ToSlash(Abs(cs));
    DistroPathLeads(distro, cs);
    var es := CleanIsAbs(u);
    ViaHost(DistroPath(distro, cs), Abs(es), distro);
    CleanAbs(es);
    HostToWindows(Abs(es), es, distro);
    SplitMount(es);
    if OnMount(es) {
      assert DrivePath(Upper(es[1][0]), es[2..])[0] != '\\';
    } else {
      ToSlashFree(Abs(cs));
      CleanFree(u, '\\');
      ToBackslashEqual(Abs(es), Abs(cs));
      SameDistroPath(distro, es, cs);
    }
  }

  lemma SameDistroPath(distro: Text, cs: seq<Text>, cs': seq<Text>)
    ensures DistroPath(distro, cs) == DistroPath(distro, cs') <==> ToBackslash(Abs(cs)) == ToBackslash(Abs(cs'))
  {
    var front := "\\\\wsl.localhost\\" + distro;
    DistroPathText(distro, cs);
    DistroPathText(distro, cs');
    assert (front + ToBackslash(Abs(cs)))[|front|..] == ToBackslash(Abs(cs));
    assert (front + ToBackslash(Abs(cs')))[|front|..] == ToBackslash(Abs(cs'));
  }

  lemma MountSlashed(cs: seq<Text>)
    requires Resolved(cs, true) && OnMount(cs)
    ensures var u, s := ToSlash(Abs(cs)), ToSlash(Join(cs[2..]));
            (Clean(u) == u <==> Settled(s)) && SplitMountDrive(u).Mount?
  {
    var c, rest := cs[1][0], cs[2..];
    assert cs[1] == [c];
    assert cs == ["mnt", [c]] + rest;
    MountAbs(c, rest);
    if rest == [] {
      assert ToSlash(Abs(cs)) == Abs(cs);
      CleanAbs(cs);
    } else {
      assert Plain(rest[0]) && Join(rest) != "";
      MountText(c, ToSlash(Join(rest)));
      assert ToSlash(Abs(cs)) == "/mnt/" + [c] + "/" + ToSlash(Join(rest));
      MountClean(c, ToSlash(Join(rest)));
    }
  }

  lemma MountClean(c: Byte, s: Text)
    requires IsLetter(c) && s != ""
    ensures var u := "/mnt/" + [c] + "/" + s; (Clean(u) == u <==> Settled(s)) && SplitMountDrive(u).Mount?
  {
    MountText(c, s);
    CleanIff("mnt" + "/" + ([c] + "/" + s));
    SplitDriveText(c, s);
    MountSettled(c, Split(s));
  }

  lemma MountSettled(c: Byte, cs: seq<Text>)
    requires IsLetter(c)
    ensures Resolved(["mnt", [c]] + cs, true) <==> Resolved(cs, true)
  {
    var all := ["mnt", [c]] + cs;
    assert forall i | 0 <= i < |cs| :: all[i + 2] == cs[i];
    assert forall i | 2 <= i < |all| :: all[i] == cs[i - 2];
  }

  /** Whether a host path, converted to Windows, is left alone from then on: reading
      its backslashes as separators must neither give anything to clean up nor move
      it onto a drive mount. */
  ghost predicate StaysConverted(q: Text) {
    var u := ToSlash(q);
    Clean(u) == u && (SplitMountDrive(u).Mount? <==> SplitMountDrive(q).Mount?)
  }

  lemma HostTwice(cs: seq<Text>, distro: Text)
    requires Resolved(cs, true) && SeparatorFree(distro) && WSLToWindows(Abs(cs), distro).Ok?
    ensures WSLToWindows(WSLToWindows(Abs(cs), distro).path, distro) == WSLToWindows(Abs(cs), distro) <==>
            StaysConverted(Abs(cs))
  {
    CleanAbs(cs);
    HostToWindows(Abs(cs), cs, distro);
    SplitMount(cs);
    if OnMount(cs) {
      DrivePathStable(Upper(cs[1][0]), cs[2..], distro);
      MountSlashed(cs);
    } else {
      DistroPathStable(distro, cs);
    }
  }

  lemma FreeStaysConverted(q: Text)
    requires HasPrefix(q, "/") && Clean(q) == q && Free(q, '\\')
    ensures StaysConverted(q)
  {
    assert ToSlash(q) == q;
  }

  /** Towards Windows, converting twice is converting once if and only if the host
      path is the same, up to its mount, with backslashes read as separators; so it
      is for every Windows path and every path without backslashes. */
  lemma WSLToWindowsTwice(p: Text, distro: Text)
    requires SeparatorFree(distro) && WSLToWindows(p, distro).Ok?
    ensures WindowsToWSL(p).Ok?
    ensures WSLToWindows(WSLToWindows(p, distro).path, distro) == WSLToWindows(p, distro) <==>
            StaysConverted(WindowsToWSL(p).path)
    ensures IsWindowsPath(p) || Free(p, '\\') ==>
              WSLToWindows(WSLToWindows(p, distro).path, distro) == WSLToWindows(p, distro)
  {
    WSLToWindowsDomain(p, distro);
    WindowsToWSLCanonical(p);
    var q := WindowsToWSL(p).path;
    var cs := CleanIsAbs(q);
    HostTwice(cs, distro);
    if IsWindowsPath(p) || Free(p, '\\') {
      if !IsWindowsPath(p) {
        CleanFree(p, '\\');
      }
      FreeStaysConverted(q);
    }
  }

  /** A Windows path is converted by way of its host path. */
  lemma ViaHost(w: Text, host: Text, distro: Text)
    requires IsWindowsPath(w) && WindowsToWSL(w) == Ok(host) && HasPrefix(host, "/")
    ensures WSLToWindows(w, distro) == WSLToWindows(host, distro)
  {
  }

  lemma MountResolved(drive: Byte, cs: seq<Text>)
    requires IsLetter(drive) && Resolved(cs, true)
    ensures var cs' := ["mnt", [Lower(drive)]] + cs; Resolved(cs', true) && OnMount(cs') && cs'[2..] == cs
  {
  }

  /** A canonical drive path comes back from POSIX as itself, with its letter in
      upper case. */
  lemma DriveRoundTrip(drive: Byte, cs: seq<Text>, distro: Text)
    requires IsLetter(drive) && AllFree(cs, '\\') && Resolved(cs, true)
    ensures WindowsToWSL(DrivePath(drive, cs)) == Ok(Abs(["mnt", [Lower(drive)]] + cs))
    ensures WSLToWindows(Abs(["mnt", [Lower(drive)]] + cs), distro) == Ok(DrivePath(Upper(drive), cs))
  {
    MountResolved(drive, cs);
    DrivePathToWSL(drive, cs);
    MountToWindows(["mnt", [Lower(drive)]] + cs, drive, cs, distro);
  }

  lemma MountToWindows(cs': seq<Text>, drive: Byte, cs: seq<Text>, distro: Text)
    requires IsLetter(drive) && Resolved(cs', true) && OnMount(cs') && cs'[1] == [Lower(drive)] && cs'[2..] == cs
    ensures WSLToWindows(Abs(cs'), distro) == Ok(DrivePath(Upper(drive), cs))
  {
    CleanAbs(cs');
    HostToWindows(Abs(cs'), cs', distro);
    assert Upper(Lower(drive)) == Upper(drive);
  }

  // ---------------------------------------------------------- what converts

  /** A drive letter, a colon, a separator, and anything. */
  ghost predicate DriveSpelled(p: Text) {
    exists drive: Byte, sep: Byte, tail: Text ::
      IsLetter(drive) && Separator(sep) && p == [drive, ':', sep] + tail
  }

  ghost predicate UncSpelled(p: Text) {
    exists extra: Text, server: Text, sep: Byte, distro: Text, tail: Text ::
      UncParts(extra, server, sep, distro, tail) && p == UncPath(extra, server, sep, distro, tail)
  }

  lemma HeadFree(u: Text)
    ensures '/' !in u[..IndexOf(u, '/')]
  {
  }

  lemma CutAt(u: Text, i: nat)
    requires i < |u| && u[i] == '/'
    ensures u == u[..i] + "/" + u[i + 1..]
  {
  }

  lemma SplitHead(u: Text)
    ensures var i := IndexOf(u, '/'); Split(u) == if i == |u| then [u] else [u[..i]] + Split(u[i + 1..])
  {
    var i := IndexOf(u, '/');
    HeadFree(u);
    if i == |u| {
      assert u[..i] == u;
      SplitComponent(u);
    } else {
      CutAt(u, i);
      SplitFirst(u[..i], u[i + 1..]);
    }
  }

  lemma HeadLength(u: Text)
    ensures IndexOf(u, '/') == 0 <==> Split(u)[0] == ""
  {
  }

  lemma SplitTwo(u: Text)
    requires |Split(u)| >= 2
    ensures var i := IndexOf(u, '/');
            i < |u| && Split(u)[0] == u[..i] && (Split(u)[1] != "" ==> IndexOf(u[i + 1..], '/') > 0)
  {
    SplitHead(u);
    HeadLength(u[IndexOf(u, '/') + 1..]);
  }

  lemma UnslashedFree(c: Text)
    requires Free(ToSlash(c), '/')
    ensures SeparatorFree(c) && ToSlash(c) == c
  {
    assert forall i | 0 <= i < |c| :: ToSlash(c)[i] != '/';
  }

  lemma ToSlashDrop(s: Text, k: nat)
    requires k <= |s|
    ensures ToSlash(s[k..]) == ToSlash(s)[k..]
  {
  }

  lemma CutOut(s: Text, i: nat)
    requires i < |s|
    ensures s == s[..i] + ([s[i]] + s[i + 1..])
  {
  }

  lemma HeadSlashed(c: Text, i: nat)
    requires i <= |c| && forall j | 0 <= j < i :: ToSlash(c)[j] != '/'
    ensures ToSlash(c)[..i] == c[..i]
  {
  }

  lemma SeparatorAt(c: Text, i: nat) returns (server: Text, sep: Byte, rest: Text)
    requires i < |c| && ToSlash(c)[i] == '/' && forall j | 0 <= j < i :: ToSlash(c)[j] != '/'
    ensures Separator(sep) && c == server + ([sep] + rest)
    ensures server == ToSlash(c)[..i] && ToSlash(rest) == ToSlash(c)[i + 1..]
  {
    CutOut(c, i);
    HeadSlashed(c, i);
    ToSlashDrop(c, i + 1);
    server, sep, rest := c[..i], c[i], c[i + 1..];
  }

  /** The text between the prefix and the first separator is the server, the text up
      to the next one the distro. */
  lemma ShareTakenApart(c: Text) returns (server: Text, sep: Byte, share: Text, tail: Text)
    requires var segments := Split(ToSlash(c)); |segments| >= 2 && segments[0] != "" && segments[1] != ""
    ensures ShareParts("", server, sep, share, tail) && c == UncBelow(server, sep, share, tail)
  {
    SplitTwo(ToSlash(c));
    var rest;
    server, sep, rest := SeparatorAt(c, IndexOf(ToSlash(c), '/'));
    ServerFree(c, server);
    share, tail := DistroTakenApart(rest);
  }

  lemma ServerFree(c: Text, server: Text)
    requires server == ToSlash(c)[..IndexOf(ToSlash(c), '/')]
    ensures SeparatorFree(server)
  {
    assert forall i | 0 <= i < |server| :: server[i] == ToSlash(c)[i] && ToSlash(c)[i] != '\\';
  }

  lemma DistroTakenApart(rest: Text) returns (distro: Text, tail: Text)
    requires IndexOf(ToSlash(rest), '/') > 0
    ensures distro != "" && SeparatorFree(distro) && (tail == "" || Separator(tail[0])) && rest == distro + tail
    ensures ToSlash(distro) == ToSlash(rest)[..IndexOf(ToSlash(rest), '/')]
  {
    var j := IndexOf(ToSlash(rest), '/');
    distro, tail := rest[..j], rest[j..];
    assert ToSlash(distro) == ToSlash(rest)[..j];
    UnslashedFree(distro);
    assert tail != "" ==> ToSlash(rest)[j] == '/';
  }

  /** Every UNC path that is not malformed is the path of a share. */
  lemma UncTakenApart(p: Text) returns (extra: Text, server: Text, sep: Byte, share: Text, tail: Text)
    requires IsUNCPath(p) && ConvertUNCToWSL(p) != Err(MalformedUNC)
    ensures ShareParts(extra, server, sep, share, tail) && p == UncPath(extra, server, sep, share, tail)
  {
    var below := p[2..];
    assert p == "\\\\" + below;
    extra := if below != "" && Separator(below[0]) then below[..1] else "";
    var c := below[|extra|..];
    assert below == extra + c;
    assert TrimPrefix(ToSlash(below), "/") == ToSlash(c) by {
      assert extra != "" ==> ToSlash(below)[0] == '/' && ToSlash(below)[1..] == ToSlash(c);
      assert extra == "" && below != "" ==> ToSlash(below)[0] != '/';
    }
    server, sep, share, tail := ShareTakenApart(c);
  }

  /** A UNC path is malformed if and only if it is not the path of a share. */
  lemma MalformedIff(p: Text)
    requires IsUNCPath(p)
    ensures ConvertUNCToWSL(p) == Err(MalformedUNC) <==>
            !exists extra: Text, server: Text, sep: Byte, share: Text, tail: Text ::
               ShareParts(extra, server, sep, share, tail) && p == UncPath(extra, server, sep, share, tail)
  {
    if ConvertUNCToWSL(p) != Err(MalformedUNC) {
      var extra, server, sep, share, tail := UncTakenApart(p);
    }
    if extra, server, sep, share, tail :|
      ShareParts(extra, server, sep, share, tail) && p == UncPath(extra, server, sep, share, tail)
    {
      ShareToWSL(extra, server, sep, share, tail);
    }
  }

  lemma UncDomainOnlyIf(p: Text)
    requires IsUNCPath(p) && ConvertUNCToWSL(p).Ok?
    ensures UncSpelled(p)
  {
    var extra, server, sep, share, tail := UncTakenApart(p);
    ShareToWSL(extra, server, sep, share, tail);
    assert UncParts(extra, server, sep, share, tail);
  }

  lemma DriveDomain(p: Text)
    ensures IsDriveLetterPath(p) && |p| > 2 <==> DriveSpelled(p)
  {
    if IsDriveLetterPath(p) && |p| > 2 {
      assert p == [p[0], ':', p[2]] + p[3..];
    }
  }

  /** Exactly the documented spellings convert: absolute paths, drive paths with
      something after the colon, and WSL UNC paths with a distro; everything else is
      an error. */
  lemma WindowsToWSLDomain(p: Text)
    ensures WindowsToWSL(p).Ok? <==> HasPrefix(p, "/") || DriveSpelled(p) || UncSpelled(p)
  {
    DriveDomain(p);
    if IsUNCPath(p) {
      if ConvertUNCToWSL(p).Ok? {
        UncDomainOnlyIf(p);
      }
      if extra, server, sep, distro, tail :|
        UncParts(extra, server, sep, distro, tail) && p == UncPath(extra, server, sep, distro, tail)
      {
        UncToWSL(extra, server, sep, distro, tail);
      }
      assert p[0] == '\\';
    }
  }

  /** Every path goes to Windows by way of its host path: it converts exactly when
      that exists and either is on a drive mount or the distro is known. */
  lemma WSLToWindowsDomain(p: Text, distro: Text)
    ensures WSLToWindows(p, distro).Ok? <==>
              WindowsToWSL(p).Ok? && (distro != "" || SplitMountDrive(WindowsToWSL(p).path).Mount?)
    ensures WindowsToWSL(p).Ok? ==> WSLToWindows(p, distro) == WSLToWindows(WindowsToWSL(p).path, distro)
  {
    if WindowsToWSL(p).Ok? {
      WindowsToWSLCanonical(p);
      HostUnfolds(WindowsToWSL(p).path, distro);
      if !IsWindowsPath(p) {
        HostUnfolds(p, distro);
      }
    }
  }
}
