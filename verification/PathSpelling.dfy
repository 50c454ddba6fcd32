/** What the path conversions give, byte by byte and case by case, errors included. */
module PathSpelling {
  import opened Bytes
  import opened CleanPaths
  import opened PathNorm

  // ------------------------------------------------------------------ separators

  /** Each separator is turned, and no other byte is touched. */
  lemma SeparatorsTurned(s: Text)
    ensures |ToSlash(s)| == |s| && forall i | 0 <= i < |s| :: ToSlash(s)[i] == if s[i] == '\\' then '/' else s[i]
    ensures |ToBackslash(s)| == |s| && forall i | 0 <= i < |s| :: ToBackslash(s)[i] == if s[i] == '/' then '\\' else s[i]
  {
  }

  /** Components with backslashes between them. */
  function Backslashed(cs: seq<Text>): Text {
    if cs == [] then "" else if |cs| == 1 then cs[0] else cs[0] + "\\" + Backslashed(cs[1..])
  }

  lemma {:induction false} BackslashedIs(cs: seq<Text>)
    requires forall i | 0 <= i < |cs| :: '/' !in cs[i]
    ensures ToBackslash(Join(cs)) == Backslashed(cs)
  {
    if |cs| > 1 {
      BackslashedIs(cs[1..]);
      TurnFirst(cs[0], Join(cs[1..]));
    } else if |cs| == 1 {
      TurnNone(cs[0]);
    }
  }

  lemma TurnNone(c: Text)
    requires '/' !in c
    ensures ToBackslash(c) == c
  {
    assert forall i | 0 <= i < |c| :: c[i] in c;
  }

  lemma TurnFirst(c: Text, s: Text)
    requires '/' !in c
    ensures ToBackslash(c + "/" + s) == c + "\\" + ToBackslash(s)
  {
    assert forall i | 0 <= i < |c| :: c[i] in c;
  }

  // ------------------------------------------------------------ towards Windows

  /** Every absolute host path: on a mount it becomes the drive letter in upper case, a
      colon, a backslash and the components below the mount with backslashes between
      them; elsewhere the same below the UNC path of the distro; without a distro it
      is an error. */
  lemma HostSpelled(host: Text, distro: Text)
    requires HasPrefix(host, "/")
    ensures var cs := Resolve([], Split(host), true);
            WSLToWindows(host, distro) ==
            if OnMount(cs) then Ok([Upper(cs[1][0]), ':', '\\'] + Backslashed(cs[2..]))
            else if distro == "" then Err(NoDistro)
            else Ok("\\\\wsl.localhost\\" + distro + "\\" + Backslashed(cs))
  {
    var cs := CleanIsAbs(host);
    HostToWindows(host, cs, distro);
    BackslashedIs(cs);
    if OnMount(cs) {
      BackslashedIs(cs[2..]);
    } else {
      DistroSpelled(distro, cs);
    }
  }

  lemma RootTurned(s: Text)
    ensures ToBackslash("/" + s) == "\\" + ToBackslash(s)
  {
  }

  lemma DistroSpelled(distro: Text, cs: seq<Text>)
    requires forall i | 0 <= i < |cs| :: '/' !in cs[i]
    ensures DistroPath(distro, cs) == "\\\\wsl.localhost\\" + distro + "\\" + Backslashed(cs)
  {
    BackslashedIs(cs);
    DistroPathText(distro, cs);
    RootTurned(Join(cs));
    Associate("\\\\wsl.localhost\\" + distro, "\\", Backslashed(cs));
  }

  /** What has no host path fails towards Windows with the same error. */
  lemma WSLToWindowsFails(p: Text, distro: Text)
    requires WindowsToWSL(p).Err?
    ensures WSLToWindows(p, distro) == WindowsToWSL(p)
  {
    if p != "" && !IsWindowsPath(p) {
      assert !HasPrefix(p, "/");
    }
  }

  // ------------------------------------------------------------ towards the host

  /** A path that is absolute already is cleaned and nothing else. */
  lemma RootedToWSL(p: Text)
    requires HasPrefix(p, "/")
    ensures WindowsToWSL(p) == Ok(Abs(Resolve([], Split(p), true)))
  {
  }

  /** The path of some share, whatever its server. */
  ghost predicate ShareSpelled(p: Text) {
    exists extra: Text, server: Text, sep: Byte, share: Text, tail: Text ::
      ShareParts(extra, server, sep, share, tail) && p == UncPath(extra, server, sep, share, tail)
  }

  predicate BareDriveSpelled(p: Text) {
    |p| == 2 && IsLetter(p[0]) && p[1] == ':'
  }

  /** Every path that does not convert, and its error: nothing at all, two backslashes
      without server and share, a share that is not of WSL, a drive with nothing after
      the colon, and everything else, which is not absolute. */
  lemma WindowsToWSLErrors(p: Text)
    requires WindowsToWSL(p).Err?
    ensures WindowsToWSL(p).error
         == if p == "" then EmptyPath
            else if HasPrefix(p, "\\\\") then (if ShareSpelled(p) then UnsupportedUNC else MalformedUNC)
            else if BareDriveSpelled(p) then BareDrive
            else NotAbsolute
  {
    if HasPrefix(p, "\\\\") {
      MalformedIff(p);
      if ShareSpelled(p) {
        UnsupportedShare(p);
      }
    } else {
      DriveDomain(p);
    }
  }

  lemma UnsupportedShare(p: Text)
    requires IsUNCPath(p) && ShareSpelled(p) && WindowsToWSL(p).Err?
    ensures WindowsToWSL(p) == Err(UnsupportedUNC)
  {
    if extra, server, sep, share, tail :|
      ShareParts(extra, server, sep, share, tail) && p == UncPath(extra, server, sep, share, tail)
    {
      ShareToWSL(extra, server, sep, share, tail);
    }
  }

  // ---------------------------------------------------------------- normal forms

  /** The cleaned form of a path whose separators are slashes, component by component. */
  lemma CleanSpelled(u: Text)
    requires u != ""
    ensures u[0] == '/' ==> Clean(u) == "/" + Join(Resolve([], Split(u), true))
    ensures u[0] != '/' ==>
              var cs := Resolve([], Split(u), false); Clean(u) == if cs == [] then "." else Join(cs)
  {
  }

  /** The normal form of every path. A drive path and a WSL UNC path lead to their place
      on the host; every other path, a bare drive and an unsupported share included,
      has its separators turned to slashes and its components resolved: from the root
      if it begins with a separator, and as a relative path otherwise. */
  lemma NormalizeIs(p: Text)
    requires p != ""
    ensures forall drive: Byte, sep: Byte, tail: Text | IsLetter(drive) && Separator(sep) && p == [drive, ':', sep] + tail ::
              Normalize(p) == "/" + Join(Resolve(["mnt", [Lower(drive)]], Split(ToSlash(tail)), true))
    ensures forall extra: Text, server: Text, sep: Byte, distro: Text, tail: Text |
              UncParts(extra, server, sep, distro, tail) && p == UncPath(extra, server, sep, distro, tail) ::
              Normalize(p) == "/" + Join(Resolve([], Split("/" + ToSlash(tail)), true))
    ensures !DriveSpelled(p) && !UncSpelled(p) && Separator(p[0]) ==>
              Normalize(p) == "/" + Join(Resolve([], Split(ToSlash(p)), true))
    ensures !DriveSpelled(p) && !UncSpelled(p) && !Separator(p[0]) ==>
              var cs := Resolve([], Split(ToSlash(p)), false); Normalize(p) == if cs == [] then "." else Join(cs)
  {
    forall drive: Byte, sep: Byte, tail: Text | IsLetter(drive) && Separator(sep) && p == [drive, ':', sep] + tail
      ensures Normalize(p) == "/" + Join(Resolve(["mnt", [Lower(drive)]], Split(ToSlash(tail)), true))
    {
      DriveToWSL(drive, sep, tail);
    }
    forall extra: Text, server: Text, sep: Byte, distro: Text, tail: Text |
      UncParts(extra, server, sep, distro, tail) && p == UncPath(extra, server, sep, distro, tail)
      ensures Normalize(p) == "/" + Join(Resolve([], Split("/" + ToSlash(tail)), true))
    {
      UncToWSL(extra, server, sep, distro, tail);
      CleanSpelled("/" + ToSlash(tail));
    }
    if !DriveSpelled(p) && !UncSpelled(p) {
      NormalizeOther(p);
    }
  }

  lemma NormalizeOther(p: Text)
    requires p != "" && !DriveSpelled(p) && !UncSpelled(p)
    ensures Separator(p[0]) ==> Normalize(p) == "/" + Join(Resolve([], Split(ToSlash(p)), true))
    ensures !Separator(p[0]) ==>
              var cs := Resolve([], Split(ToSlash(p)), false); Normalize(p) == if cs == [] then "." else Join(cs)
  {
    WindowsToWSLDomain(p);
    CleanSpelled(ToSlash(p));
    assert Normalize(p) == Clean(ToSlash(p)) by {
      assert IsWindowsPath(p) ==> !HasPrefix(p, "/");
    }
  }

  /** Paths that do not convert as Windows paths have one normal form whenever both are
      absolute, or both relative, and their components resolve alike. */
  lemma NormalizeAlike(p: Text, q: Text)
    requires p != "" && q != "" && (Separator(p[0]) <==> Separator(q[0]))
    requires !DriveSpelled(p) && !UncSpelled(p) && !DriveSpelled(q) && !UncSpelled(q)
    requires Resolve([], Split(ToSlash(p)), Separator(p[0])) == Resolve([], Split(ToSlash(q)), Separator(q[0]))
    ensures Normalize(p) == Normalize(q)
  {
    NormalizeOther(p);
    NormalizeOther(q);
  }
}
