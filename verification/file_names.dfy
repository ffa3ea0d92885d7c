/**
 * The storage object name the avatar upload builds:
 * `<userId>-<timestamp>.<extension>`, where the extension is whatever follows
 * the last `.` of the uploaded file's name (`name.split('.').pop()`), or the
 * whole name when it has no `.`.
 */
module FileNames {
  import opened Optional
  import opened Decimal

  /** `e` is the part of `s` after its last `sep`, or all of `s` when `s` holds no `sep`. */
  predicate IsLastSegment(s: string, sep: char, e: string) {
    && |e| <= |s|
    && s[|s| - |e|..] == e
    && sep !in e
    && (|e| == |s| || s[|s| - |e| - 1] == sep)
  }

  /** `s.split(sep).pop()`. */
  function AfterLast(s: string, sep: char): (e: string)
    ensures IsLastSegment(s, sep, e)
  {
    if s == [] then []
    else if s[|s| - 1] == sep then []
    else AfterLast(s[..|s| - 1], sep) + [s[|s| - 1]]
  }

  /** The extension taken from an uploaded file's name. */
  function Extension(fileName: string): (ext: string)
    ensures IsLastSegment(fileName, '.', ext)
    ensures '.' !in ext
    ensures '.' !in fileName ==> ext == fileName
  {
    AfterLast(fileName, '.')
  }

  /** No position covered by a last segment holds the separator. */
  lemma SegmentHasNoSeparator(s: string, sep: char, e: string)
    requires IsLastSegment(s, sep, e)
    ensures forall q :: |s| - |e| <= q < |s| ==> s[q] != sep
  {
    forall q | |s| - |e| <= q < |s| ensures s[q] != sep {
      assert s[q] == e[q - (|s| - |e|)];
    }
  }

  /** `AfterLast` is the only string that is a last segment: both directions. */
  lemma LastSegmentUnique(s: string, sep: char, e: string)
    ensures IsLastSegment(s, sep, e) <==> e == AfterLast(s, sep)
  {
    var a := AfterLast(s, sep);
    if IsLastSegment(s, sep, e) {
      SegmentHasNoSeparator(s, sep, e);
      SegmentHasNoSeparator(s, sep, a);
      assert |e| == |a|;
    }
  }

  /** `${userId}-${Date.now()}.${fileExt}`. */
  function AvatarFileName(userId: string, now: nat, fileName: string): string {
    userId + "-" + NatToDecimal(now) + "." + Extension(fileName)
  }

  /** The three parts an avatar object name is built from. */
  datatype AvatarName = AvatarName(userId: string, timestamp: nat, extension: string)

  /** Splits `<userId>-<digits>` at its last `-`. */
  function ParseStem(stem: string): Option<(string, nat)> {
    var digits := AfterLast(stem, '-');
    if |digits| == |stem| || digits == [] || !AllDigits(digits) then None
    else Some((stem[..|stem| - |digits| - 1], DecimalValue(digits)))
  }

  /** Splits an object name at its last `.` and then at the last `-` before it. */
  function ParseAvatarFileName(s: string): Option<AvatarName> {
    var ext := AfterLast(s, '.');
    if |ext| == |s| then None
    else
      match ParseStem(s[..|s| - |ext| - 1])
      case None => None
      case Some(p) => Some(AvatarName(p.0, p.1, ext))
  }

  /** Whatever follows a separator that does not occur again is the last segment. */
  lemma AfterLastOfJoin(a: string, sep: char, b: string)
    requires sep !in b
    ensures AfterLast(a + [sep] + b, sep) == b
    ensures (a + [sep] + b)[..|a|] == a
  {
    var s := a + [sep] + b;
    assert s[|s| - |b|..] == b;
    assert IsLastSegment(s, sep, b);
    LastSegmentUnique(s, sep, b);
  }

  /** The stem `<userId>-<timestamp>` parses back into its two parts. */
  lemma ParseStemRoundTrip(userId: string, now: nat)
    ensures ParseStem(userId + ['-'] + NatToDecimal(now)) == Some((userId, now))
  {
    var d := NatToDecimal(now);
    assert '-' !in d by {
      forall i | 0 <= i < |d| ensures d[i] != '-' {
        assert IsDigit(d[i]);
      }
    }
    AfterLastOfJoin(userId, '-', d);
    DecimalRoundTrip(now);
  }

  /** Parsing a name splits off what follows its last `.` and parses the rest as a stem. */
  lemma ParseSplitsAtLastDot(stem: string, ext: string)
    requires '.' !in ext
    ensures ParseAvatarFileName(stem + ['.'] + ext)
            == (match ParseStem(stem)
                case None => None
                case Some(p) => Some(AvatarName(p.0, p.1, ext)))
  {
    var s := stem + ['.'] + ext;
    AfterLastOfJoin(stem, '.', ext);
    assert s[..|s| - |ext| - 1] == stem;
  }

  /** Every avatar object name parses back into the user, timestamp and extension it was built from. */
  lemma AvatarFileNameRoundTrip(userId: string, now: nat, fileName: string)
    ensures ParseAvatarFileName(AvatarFileName(userId, now, fileName))
            == Some(AvatarName(userId, now, Extension(fileName)))
  {
    var stem := userId + ['-'] + NatToDecimal(now);
    assert AvatarFileName(userId, now, fileName) == stem + ['.'] + Extension(fileName);
    ParseSplitsAtLastDot(stem, Extension(fileName));
    ParseStemRoundTrip(userId, now);
  }

  /** Equal object names come from the same user, timestamp and extension. */
  lemma AvatarFileNameInjective(u1: string, t1: nat, n1: string, u2: string, t2: nat, n2: string)
    ensures AvatarFileName(u1, t1, n1) == AvatarFileName(u2, t2, n2)
            ==> u1 == u2 && t1 == t2 && Extension(n1) == Extension(n2)
  {
    AvatarFileNameRoundTrip(u1, t1, n1);
    AvatarFileNameRoundTrip(u2, t2, n2);
  }

  /** For one user and one uploaded file name, different upload times never share an object name. */
  lemma DistinctTimestampsDistinctNames(userId: string, fileName: string, t1: nat, t2: nat)
    requires t1 != t2
    ensures AvatarFileName(userId, t1, fileName) != AvatarFileName(userId, t2, fileName)
  {
    AvatarFileNameInjective(userId, t1, fileName, userId, t2, fileName);
  }
}
