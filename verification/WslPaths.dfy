/**
Paths of a Linux distribution seen from Windows, and back.
*/
module WslPaths {
  import opened Options
  import opened Slashes

  datatype Info = Info(distro: string, linuxPath: string)

  const MODERN := "//wsl.localhost/"
  const LEGACY := "//wsl$/"

  // ---------------------------------------------------------------------
  // Shapes of paths
  // ---------------------------------------------------------------------

  predicate IsLineBreak(c: char) {
    c == '\n' || c == '\r' || c == '\U{2028}' || c == '\U{2029}'
  }

  predicate SingleLine(s: string) {
    forall i | 0 <= i < |s| :: !IsLineBreak(s[i])
  }

  predicate Lacks(s: string, c: char) {
    forall i | 0 <= i < |s| :: s[i] != c
  }

  predicate StartsWith(s: string, prefix: string) {
    |prefix| <= |s| && s[..|prefix|] == prefix
  }

  /** The length of the part of `s` before its first slash. */
  function FirstName(s: string): (n: nat)
    ensures n <= |s| && forall i | 0 <= i < n :: s[i] != '/'
    ensures n < |s| ==> s[n] == '/'
  {
    if s == "" || s[0] == '/' then 0 else FirstName(s[1..]) + 1
  }

  /** A drive below the mount point: `/mnt/<drive>`, alone or with a path behind it. */
  predicate IsMounted(p: string) {
    && |p| >= 6 && p[..5] == "/mnt/" && 'a' <= p[5] <= 'z'
    && (|p| == 6 || (p[6] == '/' && SingleLine(p[7..])))
  }

  predicate IsLetter(c: char) {
    'a' <= c <= 'z' || 'A' <= c <= 'Z'
  }

  predicate IsDrivePath(w: string) {
    |w| >= 3 && IsLetter(w[0]) && w[1] == ':' && (w[2] == '/' || w[2] == '\\') && SingleLine(w[3..])
  }

  function Lower(c: char): char
    requires IsLetter(c)
  {
    if 'A' <= c <= 'Z' then c + ('a' - 'A') else c
  }

  function Upper(c: char): char
    requires 'a' <= c <= 'z'
  {
    c - ('a' - 'A')
  }

  // ---------------------------------------------------------------------
  // The translations
  // ---------------------------------------------------------------------

  function ParseTail(tail: string): Option<Info> {
    var n := FirstName(tail);
    if n == 0 then None
    else if n == |tail| then Some(Info(tail, "/"))
    else if SingleLine(tail[n + 1..]) then Some(Info(tail[..n], tail[n..]))
    else None
  }

  function ParseWslPath(win32: bool, windowsPath: string): Option<Info> {
    var normalized := Slashed(windowsPath);
    if !win32 then None
    else if StartsWith(normalized, MODERN) then ParseTail(normalized[|MODERN|..])
    else if StartsWith(normalized, LEGACY) then ParseTail(normalized[|LEGACY|..])
    else None
  }

  function ToLinuxPath(win32: bool, windowsPath: string): string {
    match ParseWslPath(win32, windowsPath)
    case Some(info) => info.linuxPath
    case None =>
      if IsDrivePath(windowsPath) then "/mnt/" + [Lower(windowsPath[0])] + "/" + Slashed(windowsPath[3..])
      else windowsPath
  }

  const HOST := "\\\\wsl.localhost\\"

  function ToWindowsWslPath(linuxPath: string, distro: string): string {
    if IsMounted(linuxPath) then
      [Upper(linuxPath[5])] + ":" + if |linuxPath| > 6 then Backslashed(linuxPath[6..]) else "\\"
    else HOST + distro + Backslashed(linuxPath)
  }

  // ---------------------------------------------------------------------
  // Round trips
  // ---------------------------------------------------------------------

  /** What a mounted path comes back as: with a slash behind a bare drive, and without
      backslashes. */
  lemma MountedRoundTrip(win32: bool, p: string, d: string)
    requires IsMounted(p)
    ensures ToLinuxPath(win32, ToWindowsWslPath(p, d)) == if |p| == 6 then p + "/" else Slashed(p)
  {
    var w := ToWindowsWslPath(p, d);
    DriveIsNotUnc(win32, w);
    MountedAsDrive(p);
    if |p| > 6 {
      DriveBehindMount(p);
    } else {
      assert w[3..] == "" && Slashed("") == "";
    }
  }

  /** A path with a colon behind its first letter is no network path. */
  lemma DriveIsNotUnc(win32: bool, w: string)
    requires |w| >= 2 && w[1] == ':'
    ensures ParseWslPath(win32, w) == None
  {
    assert Slashed(w)[1] == ':' && MODERN[1] == '/' && LEGACY[1] == '/';
    OtherStart(Slashed(w), MODERN, 1);
    OtherStart(Slashed(w), LEGACY, 1);
  }

  lemma OtherStart(s: string, prefix: string, i: nat)
    requires i < |s| && i < |prefix| && s[i] != prefix[i]
    ensures !StartsWith(s, prefix)
  {
    assert |prefix| <= |s| ==> s[..|prefix|][i] == s[i];
  }

  lemma MountedAsDrive(p: string)
    requires IsMounted(p)
    ensures p == "/mnt/" + [p[5]] + p[6..] && Lower(Upper(p[5])) == p[5] && IsLetter(Upper(p[5]))
  {
    assert p[..5] == "/mnt/";
    assert p == p[..5] + [p[5]] + p[6..];
  }

  lemma DriveBehindMount(p: string)
    requires IsMounted(p) && |p| > 6
    ensures var w := [Upper(p[5])] + ":" + Backslashed(p[6..]);
      && IsDrivePath(w) && "/mnt/" + [p[5]] + "/" + Slashed(w[3..]) == Slashed(p)
  {
    var w := [Upper(p[5])] + ":" + Backslashed(p[6..]);
    MountedAsDrive(p);
    assert w[3..] == Backslashed(p[7..]);
    assert Slashed(w[3..]) == Slashed(p[7..]);
    SlashedMounted(p);
  }

  lemma SlashedMounted(p: string)
    requires IsMounted(p) && |p| > 6
    ensures Slashed(p) == "/mnt/" + [p[5]] + "/" + Slashed(p[7..])
  {
    assert p[..5] == "/mnt/";
    forall i | 0 <= i < 5 ensures Slashed(p)[i] == "/mnt/"[i] {
      assert p[i] == p[..5][i];
    }
    assert Slashed(p)[7..] == Slashed(p[7..]);
    assert Slashed(p)[..5] == "/mnt/";
    assert Slashed(p) == Slashed(p)[..5] + [Slashed(p)[5]] + [Slashed(p)[6]] + Slashed(p)[7..];
  }

  lemma NormalizedUnc(p: string, d: string)
    requires !IsMounted(p)
    ensures Slashed(ToWindowsWslPath(p, d)) == MODERN + (Slashed(d) + Slashed(p))
  {
    SlashedHost();
    SlashedAppend(HOST + d, Backslashed(p));
    SlashedAppend(HOST, d);
    assert Slashed(Backslashed(p)) == Slashed(p);
    assert MODERN + Slashed(d) + Slashed(p) == MODERN + (Slashed(d) + Slashed(p));
  }

  lemma SlashedHost()
    ensures Slashed(HOST) == MODERN
  {
  }

  lemma SlashedAppend(a: string, b: string)
    ensures Slashed(a + b) == Slashed(a) + Slashed(b)
  {
  }

  /** On Windows any other path is read back by cutting the printed one at its first slash. */
  lemma UncRoundTrip(p: string, d: string)
    requires !IsMounted(p)
    ensures ParseWslPath(true, ToWindowsWslPath(p, d)) == ParseTail(Slashed(d) + Slashed(p))
    ensures ParseTail(Slashed(d) + Slashed(p)) == None ==>
              ToLinuxPath(true, ToWindowsWslPath(p, d)) == ToWindowsWslPath(p, d)
  {
    var tail := Slashed(d) + Slashed(p);
    NormalizedUnc(p, d);
    assert (MODERN + tail)[..|MODERN|] == MODERN && (MODERN + tail)[|MODERN|..] == tail;
    assert ToWindowsWslPath(p, d)[0] == '\\';
  }

  /** A distribution's name: not empty, and without separators. */
  predicate IsName(d: string) {
    d != "" && Lacks(d, '/') && Lacks(d, '\\')
  }

  predicate IsPlain(p: string) {
    p != "" && p[0] == '/' && Lacks(p, '\\') && SingleLine(p)
  }

  lemma TailOfPlain(p: string, d: string)
    requires IsName(d) && IsPlain(p)
    ensures ParseTail(Slashed(d) + Slashed(p)) == Some(Info(d, p))
  {
    var t, n := Slashed(d) + Slashed(p), FirstName(Slashed(d) + Slashed(p));
    assert Slashed(d) == d && Slashed(p) == p;
    assert t[|d|] == '/';
    assert forall i | 0 <= i < |d| :: t[i] == d[i];
    assert t[n..] == p && t[..n] == d && t[n + 1..] == p[1..];
  }

  lemma PlainOfTail(p: string, d: string)
    requires ParseTail(Slashed(d) + Slashed(p)).Some? && ParseTail(Slashed(d) + Slashed(p)).value.linuxPath == p
    ensures IsName(d) && IsPlain(p)
  {
    var t, n := Slashed(d) + Slashed(p), FirstName(Slashed(d) + Slashed(p));
    assert p != "" && t[|d|] == Slashed(p)[0];
    assert n < |t|;
    assert t[n..] == p;
    assert n == |d| && t[..n] == Slashed(d) && t[n..] == Slashed(p);
    forall i | 0 <= i < |d| ensures d[i] != '/' && d[i] != '\\' {
      assert Slashed(d)[i] != '/';
    }
    forall i | 0 <= i < |p| ensures p[i] != '\\' && !IsLineBreak(p[i]) {
      assert p[i] == Slashed(p)[i];
      assert i > 0 ==> p[i] == t[n + 1..][i - 1];
    }
  }

  /** On Windows a path survives the round trip exactly when it is absolute, on one line
      and without backslash, is not a bare drive, and either lies on a drive or meets a
      proper distribution name. */
  lemma RoundTripIff(p: string, d: string)
    ensures ToLinuxPath(true, ToWindowsWslPath(p, d)) == p
       <==> IsPlain(p) && if IsMounted(p) then |p| > 6 else IsName(d)
  {
    if IsMounted(p) {
      MountedRoundTrip(true, p, d);
      MountedIsPlainIff(p);
    } else {
      UncRoundTrip(p, d);
      if IsName(d) && IsPlain(p) {
        TailOfPlain(p, d);
      } else if ParseTail(Slashed(d) + Slashed(p)).Some? {
        if ToLinuxPath(true, ToWindowsWslPath(p, d)) == p {
          PlainOfTail(p, d);
        }
      } else {
        assert |ToWindowsWslPath(p, d)| > |p|;
      }
    }
  }

  lemma MountedIsPlainIff(p: string)
    requires IsMounted(p)
    ensures IsPlain(p) <==> Slashed(p) == p
  {
    assert p[..5] == "/mnt/" && p[0] == p[..5][0];
    if IsPlain(p) {
      assert forall i | 0 <= i < |p| :: Slashed(p)[i] == p[i];
    } else if Slashed(p) == p {
      assert forall i | 0 <= i < |p| :: Slashed(p)[i] != '\\';
      forall i | 0 <= i < |p| ensures !IsLineBreak(p[i]) {
        assert i < 5 ==> p[i] == p[..5][i];
        assert i > 6 ==> p[i] == p[7..][i - 7];
      }
    }
  }

  /** A bare drive comes back as a directory. */
  lemma BareDriveGainsASlash(d: string)
    ensures ToLinuxPath(true, ToWindowsWslPath("/mnt/c", d)) == "/mnt/c/"
  {
    assert "/mnt/c"[..5] == "/mnt/" && "/mnt/c"[5] == 'c';
    MountedRoundTrip(true, "/mnt/c", d);
  }

  /** Elsewhere only paths on a drive do. */
  lemma RoundTripElsewhereIff(p: string, d: string)
    ensures ToLinuxPath(false, ToWindowsWslPath(p, d)) == p <==> IsMounted(p) && |p| > 6 && IsPlain(p)
  {
    if IsMounted(p) {
      MountedRoundTrip(false, p, d);
      MountedIsPlainIff(p);
    } else {
      assert ToWindowsWslPath(p, d)[0] == '\\';
      assert |ToWindowsWslPath(p, d)| > |p|;
    }
  }

  /** Printing what was parsed, and parsing it again, changes nothing; mounted drives are
      printed as drives and no longer name a distribution. */
  lemma ReprintIsStable(w: string)
    requires ParseWslPath(true, w).Some?
    ensures var info := ParseWslPath(true, w).value;
            ParseWslPath(true, ToWindowsWslPath(info.linuxPath, info.distro))
            == if IsMounted(info.linuxPath) then None else Some(info)
  {
    var info := ParseWslPath(true, w).value;
    ParsedPathIsPlain(w);
    if IsMounted(info.linuxPath) {
      DriveIsNotUnc(true, ToWindowsWslPath(info.linuxPath, info.distro));
    } else {
      UncRoundTrip(info.linuxPath, info.distro);
      TailOfPlain(info.linuxPath, info.distro);
    }
  }

  lemma ParsedPathIsPlain(w: string)
    requires ParseWslPath(true, w).Some?
    ensures IsName(ParseWslPath(true, w).value.distro) && IsPlain(ParseWslPath(true, w).value.linuxPath)
  {
    var n := Slashed(w);
    if StartsWith(n, MODERN) {
      ParsedIsPlain(n[|MODERN|..]);
    } else {
      ParsedIsPlain(n[|LEGACY|..]);
    }
  }

  lemma ParsedIsPlain(tail: string)
    requires Lacks(tail, '\\') && ParseTail(tail).Some?
    ensures IsName(ParseTail(tail).value.distro) && IsPlain(ParseTail(tail).value.linuxPath)
  {
    var n := FirstName(tail);
    if n < |tail| {
      var p := tail[n..];
      assert p[0] == '/' && p[1..] == tail[n + 1..];
      assert forall i | 1 <= i < |p| :: p[i] == p[1..][i - 1];
    }
  }

  // ---------------------------------------------------------------------
  // The forms themselves
  // ---------------------------------------------------------------------

  /** The current and the legacy form of a network path, with slashes of either kind, name
      the distribution and the path in it. */
  lemma NetworkPathsAreRead(d: string, p: string)
    requires IsName(d) && IsPlain(p)
    ensures ParseWslPath(true, "\\\\wsl.localhost\\" + d + Backslashed(p)) == Some(Info(d, p))
    ensures ParseWslPath(true, "\\\\wsl$\\" + d + Backslashed(p)) == Some(Info(d, p))
    ensures ParseWslPath(true, "//wsl.localhost/" + d + p) == Some(Info(d, p))
    ensures ParseWslPath(true, "//wsl$/" + d + p) == Some(Info(d, p))
  {
    PlainSlashes(d, p);
    ReadBehind(MODERN, "\\\\wsl.localhost\\", d, p);
    ReadBehind(MODERN, "//wsl.localhost/", d, p);
    LegacyIsNotModern("\\\\wsl$\\" + d + Backslashed(p));
    LegacyIsNotModern("//wsl$/" + d + p);
    ReadBehind(LEGACY, "\\\\wsl$\\", d, p);
    ReadBehind(LEGACY, "//wsl$/", d, p);
    TailOfPlain(p, d);
  }

  lemma PlainSlashes(d: string, p: string)
    requires IsName(d) && IsPlain(p)
    ensures Slashed(d) == d && Slashed(p) == p && Slashed(Backslashed(p)) == p
  {
  }

  lemma LegacyIsNotModern(w: string)
    requires |w| >= 6 && w[5] == '$'
    ensures !StartsWith(Slashed(w), MODERN)
  {
    assert Slashed(w)[5] == '$' && MODERN[5] == '.';
    OtherStart(Slashed(w), MODERN, 5);
  }

  lemma ReadBehind(prefix: string, start: string, d: string, p: string)
    requires IsName(d) && IsPlain(p) && Slashed(start) == prefix
    ensures forall q | q == p || q == Backslashed(p) ::
      StartsWith(Slashed(start + d + q), prefix) && Slashed(start + d + q)[|prefix|..] == Slashed(d) + Slashed(p)
  {
    PlainSlashes(d, p);
    forall q | q == p || q == Backslashed(p)
      ensures StartsWith(Slashed(start + d + q), prefix)
      ensures Slashed(start + d + q)[|prefix|..] == Slashed(d) + Slashed(p)
    {
      SlashedAppend(start + d, q);
      SlashedAppend(start, d);
      assert Slashed(start + d + q) == prefix + (Slashed(d) + Slashed(p));
    }
  }

  /** A drive path is a path below the mount of its drive, in lower case. */
  lemma DriveIsMounted(win32: bool, drive: char, separator: char, rest: string, lower: char)
    requires 'a' <= lower <= 'z' && (drive == lower || drive as int == lower as int - 32)
    requires (separator == '\\' || separator == '/') && SingleLine(rest)
    ensures ToLinuxPath(win32, [drive] + ":" + [separator] + rest) == "/mnt/" + [lower] + "/" + Slashed(rest)
  {
    var w := [drive] + ":" + [separator] + rest;
    DriveIsNotUnc(win32, w);
    assert w[3..] == rest;
  }

  /** And a path below a mount is a drive path, with the drive in upper case. */
  lemma MountIsDrive(drive: char, upper: char, rest: string, d: string)
    requires 'a' <= drive <= 'z' && upper as int == drive as int - 32 && SingleLine(rest)
    ensures ToWindowsWslPath("/mnt/" + [drive] + "/" + rest, d) == [upper] + ":\\" + Backslashed(rest)
  {
    var p := "/mnt/" + [drive] + "/" + rest;
    Mounted(drive, "/" + rest);
    assert p == "/mnt/" + [drive] + ("/" + rest);
    assert p[7..] == p[6..][1..] == rest;
    BehindTheColon([upper] + ":", rest);
  }

  lemma BehindTheColon(start: string, rest: string)
    ensures start + Backslashed("/" + rest) == start + "\\" + Backslashed(rest)
  {
    assert Backslashed("/" + rest) == "\\" + Backslashed(rest);
  }

  lemma BareMountIsDrive(drive: char, upper: char, d: string)
    requires 'a' <= drive <= 'z' && upper as int == drive as int - 32
    ensures ToWindowsWslPath("/mnt/" + [drive], d) == [upper] + ":\\"
  {
    Mounted(drive, "");
    assert "/mnt/" + [drive] + "" == "/mnt/" + [drive];
  }

  lemma Mounted(drive: char, behind: string)
    ensures var p := "/mnt/" + [drive] + behind;
      |p| == 6 + |behind| && p[..5] == "/mnt/" && p[5] == drive && p[6..] == behind
  {
  }
}
