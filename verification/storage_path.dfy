/** The object key an upload is stored under:
    `<userId>/<milliseconds since the epoch>-<sanitised file name>`. */
module StoragePath {
  import opened Optional
  import opened Text

  function BuildPath(userId: string, now: nat, safeName: string): (path: string)
    ensures StartsWith(path, userId + "/")
    ensures HasNoWhitespace(userId) && HasNoWhitespace(safeName) ==> HasNoWhitespace(path)
  {
    var path := userId + "/" + Decimal(now) + "-" + safeName;
    assert path[..|userId| + 1] == userId + "/";
    path
  }

  /** The three parts a key is made of. */
  datatype PathParts = PathParts(userId: string, timestamp: nat, safeName: string)

  /** Reads a key back: the user id up to the first `/`, then a run of
      decimal digits without a leading zero up to the first `-`, then the
      file name. */
  function ParsePath(path: string): Option<PathParts> {
    match IndexOf(path, '/')
    case None => None
    case Some(i) =>
      var rest := path[i + 1..];
      match IndexOf(rest, '-')
      case None => None
      case Some(j) =>
        var digits := rest[..j];
        if CanonicalDecimal(digits)
        then Some(PathParts(path[..i], DecimalValue(digits), rest[j + 1..]))
        else None
  }

  /** Every key the pages build can be read back into the user id, the
      timestamp and the file name it was built from, provided the user id
      holds no `/` (a UUID never does). */
  lemma ParseBuildPath(userId: string, now: nat, safeName: string)
    requires '/' !in userId
    ensures ParsePath(BuildPath(userId, now, safeName)) == Some(PathParts(userId, now, safeName))
  {
    BuildPathJoin(userId, now, safeName);
    ParseJoin(userId, Decimal(now), safeName);
    DecimalRoundTrip(now);
  }

  /** The key written with single-character separators. */
  lemma BuildPathJoin(userId: string, now: nat, safeName: string)
    ensures BuildPath(userId, now, safeName) == userId + ['/'] + (Decimal(now) + ['-'] + safeName)
  {
  }

  /** The parser splits at the separators: a user id without `/`, then
      canonical digits, which hold no `-`, then the rest. */
  lemma ParseJoin(userId: string, digits: string, safeName: string)
    requires '/' !in userId && CanonicalDecimal(digits)
    ensures ParsePath(userId + ['/'] + (digits + ['-'] + safeName))
         == Some(PathParts(userId, DecimalValue(digits), safeName))
  {
    var rest := digits + ['-'] + safeName;
    var path := userId + ['/'] + rest;
    IndexOfAfter(userId, '/', rest);
    assert path[..|userId|] == userId;
    assert path[|userId| + 1..] == rest;
    assert '-' !in digits by {
      forall k | 0 <= k < |digits| ensures digits[k] != '-' {
        assert IsDigit(digits[k]);
      }
    }
    IndexOfAfter(digits, '-', safeName);
    assert rest[..|digits|] == digits;
    assert rest[|digits| + 1..] == safeName;
  }

  /** The other direction: every key the parser accepts is exactly the key
      built from its parts, so the digit text between `/` and `-` is the
      clock reading as JavaScript writes it, without padding. */
  lemma BuildParsePath(path: string)
    requires ParsePath(path).Some?
    ensures var parts := ParsePath(path).value;
            BuildPath(parts.userId, parts.timestamp, parts.safeName) == path
  {
    var i := IndexOf(path, '/').value;
    var rest := path[i + 1..];
    var j := IndexOf(rest, '-').value;
    assert ParsePath(path).value == PathParts(path[..i], DecimalValue(rest[..j]), rest[j + 1..]);
    SplitAt(rest, j, '-');
    SplitAt(path, i, '/');
    Rebuild(path[..i], rest[..j], rest[j + 1..], rest, path);
  }

  /** A key assembled from a user id, a canonical digit text and a name is
      the key built from the number those digits denote. */
  lemma Rebuild(userId: string, digits: string, safeName: string, rest: string, path: string)
    requires CanonicalDecimal(digits)
    requires rest == digits + ['-'] + safeName
    requires path == userId + ['/'] + rest
    ensures BuildPath(userId, DecimalValue(digits), safeName) == path
  {
    CanonicalDecimalRoundTrip(digits);
    BuildPathJoin(userId, DecimalValue(digits), safeName);
  }

  /** A string is its prefix, the separator at `k` and its suffix. */
  lemma SplitAt(s: string, k: nat, c: char)
    requires k < |s| && s[k] == c
    ensures s == s[..k] + [c] + s[k + 1..]
  {
  }

  /** Keys of one user and one file name differ whenever the timestamps
      differ, so a retry at a different millisecond never collides. */
  lemma DistinctTimestampsDistinctPaths(userId: string, t1: nat, t2: nat, safeName: string)
    requires t1 != t2
    ensures BuildPath(userId, t1, safeName) != BuildPath(userId, t2, safeName)
  {
    var p1 := BuildPath(userId, t1, safeName);
    var p2 := BuildPath(userId, t2, safeName);
    if p1 == p2 {
      var lo := |userId| + 1;
      assert p1[lo..|p1| - |safeName| - 1] == Decimal(t1);
      assert p2[lo..|p2| - |safeName| - 1] == Decimal(t2);
      DecimalInjective(t1, t2);
    }
  }
}
