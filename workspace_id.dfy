/** WorkspaceIdCalculator.calculateWorkspaceId in the editor extension: the
    text that is hashed to find a workspace's storage folder, and the cut of
    the digest.  The digest itself is a parameter. */
module WorkspaceIds {
  import opened Common

  /** The path starts with an upper-case drive letter and a colon. */
  predicate HasUpperDrive(p: string) {
    |p| >= 2 && 'A' <= p[0] <= 'Z' && p[1] == ':'
  }

  /** The replace of line 163 of extension.ts: a leading `[A-Z]:` has its
      letter lowered; every other path is returned as it is. */
  function NormalizeDriveLetter(p: string): (r: string)
    ensures |r| == |p|
    ensures |p| > 0 ==> r[1..] == p[1..]
    ensures HasUpperDrive(p) ==> r[0] == AsciiLower(p[0]) && 'a' <= r[0] <= 'z'
    ensures !HasUpperDrive(p) ==> r == p
    ensures !HasUpperDrive(r)
  {
    if HasUpperDrive(p) then [AsciiLower(p[0])] + p[1..] else p
  }

  /** Normalising twice is normalising once. */
  lemma NormalizeIdempotent(p: string)
    ensures NormalizeDriveLetter(NormalizeDriveLetter(p)) == NormalizeDriveLetter(p)
  {
  }

  /** A path and the same path with its drive letter in the other case
      normalise to the same text. */
  lemma {:induction false} DriveCaseIgnored(p: string, q: string)
    requires |p| >= 2 && |p| == |q| && p[1..] == q[1..] && p[1] == ':'
    requires 'a' <= p[0] <= 'z' && q[0] as int == p[0] as int - 32
    ensures NormalizeDriveLetter(q) == NormalizeDriveLetter(p)
  {
    assert HasUpperDrive(q) && !HasUpperDrive(p);
    var r := NormalizeDriveLetter(q);
    assert r[0] == p[0];
    assert r == [r[0]] + r[1..];
    assert p == [p[0]] + p[1..];
  }

  /** Only letters A to Z are lowered: a path that does not start that way
      is hashed exactly as given. */
  lemma NonDriveUnchanged(p: string)
    requires |p| < 2 || !('A' <= p[0] <= 'Z') || p[1] != ':'
    ensures NormalizeDriveLetter(p) == p
  {
  }

  /** Line 159: the birth time, or the change time when the birth time is 0. */
  function CreationTimeMs(birthtimeMs: real, ctimeMs: real): (t: real)
    ensures birthtimeMs != 0.0 ==> t == birthtimeMs
    ensures birthtimeMs == 0.0 ==> t == ctimeMs
  {
    if birthtimeMs != 0.0 then birthtimeMs else ctimeMs
  }

  /** Line 166: the normalised path followed by the whole milliseconds. */
  function HashInput(workspaceDir: string, ctimeMs: real): string {
    NormalizeDriveLetter(workspaceDir) + DecimalText(ctimeMs.Floor)
  }

  /** Decimal text names one integer. */
  lemma DecimalTextInjective(a: int, b: int)
    requires DecimalText(a) == DecimalText(b)
    ensures a == b
  {
    var s := DecimalText(a);
    assert a >= 0 ==> IsDigit(s[0]);
    assert b >= 0 ==> IsDigit(s[0]);
  }

  /** For paths of one length, the hashed text pins down both the normalised
      path and the whole milliseconds: two such workspaces share a hash input
      only when both agree. */
  lemma HashInputDetermines(d1: string, t1: real, d2: string, t2: real)
    requires |d1| == |d2|
    ensures HashInput(d1, t1) == HashInput(d2, t2) <==>
      NormalizeDriveLetter(d1) == NormalizeDriveLetter(d2) && t1.Floor == t2.Floor
  {
    var n1, n2 := NormalizeDriveLetter(d1), NormalizeDriveLetter(d2);
    var x1, x2 := DecimalText(t1.Floor), DecimalText(t2.Floor);
    if n1 + x1 == n2 + x2 {
      assert n1 == (n1 + x1)[..|d1|] && n2 == (n2 + x2)[..|d2|];
      assert x1 == (n1 + x1)[|d1|..] && x2 == (n2 + x2)[|d2|..];
      DecimalTextInjective(t1.Floor, t2.Floor);
    }
  }

  /** Line 173: slice(0, -3) of the hex digest, empty when it is shorter. */
  function WorkspaceIdOf(hexDigest: string): (id: string)
    ensures |hexDigest| >= 3 ==> |id| == |hexDigest| - 3 && id == hexDigest[..|id|]
    ensures |hexDigest| < 3 ==> id == []
  {
    if |hexDigest| >= 3 then hexDigest[..|hexDigest| - 3] else []
  }

  /** The workspace id for a path, its times and the digest function. */
  function WorkspaceId(workspaceDir: string, birthtimeMs: real, ctimeMs: real,
                       md5Hex: string -> string): (id: string)
    ensures |md5Hex(HashInput(workspaceDir, CreationTimeMs(birthtimeMs, ctimeMs)))| == 32 ==> |id| == 29
  {
    WorkspaceIdOf(md5Hex(HashInput(workspaceDir, CreationTimeMs(birthtimeMs, ctimeMs))))
  }

  /** Two workspaces whose paths differ only in the case of the drive letter
      and that were created at the same time get the same id. */
  lemma SameIdAcrossDriveCase(p: string, q: string, birthtimeMs: real, ctimeMs: real,
                              md5Hex: string -> string)
    requires |p| >= 2 && |p| == |q| && p[1..] == q[1..] && p[1] == ':'
    requires 'a' <= p[0] <= 'z' && q[0] as int == p[0] as int - 32
    ensures WorkspaceId(p, birthtimeMs, ctimeMs, md5Hex) == WorkspaceId(q, birthtimeMs, ctimeMs, md5Hex)
  {
    DriveCaseIgnored(p, q);
  }

  /** Line 159: the change time is used only when the file system reports no
      birth time, and then it stands in for it. */
  lemma ChangeTimeOnlyWithoutBirthTime(dir: string, birthtimeMs: real, c1: real, c2: real,
                                       md5Hex: string -> string)
    ensures birthtimeMs != 0.0 ==> WorkspaceId(dir, birthtimeMs, c1, md5Hex) == WorkspaceId(dir, birthtimeMs, c2, md5Hex)
    ensures c1 != 0.0 ==> WorkspaceId(dir, 0.0, c1, md5Hex) == WorkspaceId(dir, c1, c2, md5Hex)
  {
  }

  /** Line 166: only the whole milliseconds of the creation time reach the
      digest, so times within one millisecond give one id. */
  lemma WholeMillisecondsOnly(dir: string, t1: real, t2: real, ctimeMs: real, md5Hex: string -> string)
    requires t1 != 0.0 && t2 != 0.0 && t1.Floor == t2.Floor
    ensures WorkspaceId(dir, t1, ctimeMs, md5Hex) == WorkspaceId(dir, t2, ctimeMs, md5Hex)
  {
  }

  /** Line 173: the id is the digest with its last three characters cut
      off, so the digest is the id followed by three more characters. */
  lemma IdIsDigestPrefix(hexDigest: string)
    requires |hexDigest| >= 3
    ensures var id := WorkspaceIdOf(hexDigest);
            id <= hexDigest && |hexDigest| - |id| == 3
  {
  }
}
