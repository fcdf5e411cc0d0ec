/** Server and plugin versions: semantic versions built from their parts, the
    version read from the classpath properties, and the comparisons used to
    check plugin compatibility. Precedence follows section 11 of Semantic
    Versioning 2.0.0. */
module Versions {
  import opened Wrappers

  /** A semantic version; the pre-release and build parts are lists of
      dot-separated identifiers, empty when absent. */
  datatype SemVer = SemVer(major: nat, minor: nat, patch: nat, pre: seq<string>, build: seq<string>)

  // ---------------------------------------------------------------------
  // Dot-separated identifier lists
  // ---------------------------------------------------------------------

  /** Splits at every '.'; the empty string is one empty identifier. */
  function Split(s: string): (ids: seq<string>)
    ensures ids != []
  {
    if s == [] then [""]
    else if s[0] == '.' then [""] + Split(s[1..])
    else var r := Split(s[1..]); [[s[0]] + r[0]] + r[1..]
  }

  /** Joins the identifiers with '.'. */
  function Join(ids: seq<string>): string
  {
    if ids == [] then ""
    else if |ids| == 1 then ids[0]
    else ids[0] + "." + Join(ids[1..])
  }

  predicate NoDot(id: string) { forall i :: 0 <= i < |id| ==> id[i] != '.' }

  /** Identifiers as the version parser produces them: non-empty, no dot. */
  predicate WellFormedIds(ids: seq<string>) {
    forall i :: 0 <= i < |ids| ==> ids[i] != [] && NoDot(ids[i])
  }

  lemma {:induction false} SplitPrefix(a: string, rest: string)
    requires NoDot(a)
    ensures Split(a + rest) == (var r := Split(rest); [a + r[0]] + r[1..])
  {
    if a != [] {
      assert (a + rest)[1..] == a[1..] + rest;
      SplitPrefix(a[1..], rest);
      assert [a[0]] + (a[1..] + Split(rest)[0]) == a + Split(rest)[0];
    } else {
      var r := Split(rest);
      assert a + rest == rest && a + r[0] == r[0];
      assert r == [r[0]] + r[1..];
    }
  }

  /** Joining well-formed identifiers and splitting again gives them back. */
  lemma {:induction false} SplitJoin(ids: seq<string>)
    requires ids != [] && WellFormedIds(ids)
    ensures Split(Join(ids)) == ids
  {
    if |ids| == 1 {
      SplitPrefix(ids[0], "");
      assert ids[0] + "" == ids[0] && Split("") == [""];
      assert ids == [ids[0]];
    } else {
      SplitJoin(ids[1..]);
      assert ids[0] + "." + Join(ids[1..]) == ids[0] + ("." + Join(ids[1..]));
      var tail := "." + Join(ids[1..]);
      SplitPrefix(ids[0], tail);
      assert tail[0] == '.' && tail[1..] == Join(ids[1..]);
      assert Split(tail) == [""] + ids[1..];
      assert ids[0] + "" == ids[0];
      assert ids == [ids[0]] + ids[1..];
    }
  }

  /** Well-formed identifiers join to a non-empty string. */
  lemma JoinNonEmpty(ids: seq<string>)
    requires ids != [] && WellFormedIds(ids)
    ensures Join(ids) != []
  {
    if |ids| > 1 {
      assert |Join(ids)| >= |ids[0]|;
    }
  }

  // ---------------------------------------------------------------------
  // Building versions
  // ---------------------------------------------------------------------

  predicate IsNullOrEmpty(s: Option<string>) { s.None? || s.value == [] }

  /** `buildSemVer`: a pre-release or build part is attached only when the
      given string is neither null nor empty. */
  function From(major: nat, minor: nat, patch: nat, preRelease: Option<string>,
                buildMetadata: Option<string>): (v: SemVer)
    ensures v.major == major && v.minor == minor && v.patch == patch
    ensures v.pre == [] <==> IsNullOrEmpty(preRelease)
    ensures v.build == [] <==> IsNullOrEmpty(buildMetadata)
    ensures !IsNullOrEmpty(preRelease) ==> v.pre == Split(preRelease.value)
    ensures !IsNullOrEmpty(buildMetadata) ==> v.build == Split(buildMetadata.value)
  {
    SemVer(major, minor, patch,
           if IsNullOrEmpty(preRelease) then [] else Split(preRelease.value),
           if IsNullOrEmpty(buildMetadata) then [] else Split(buildMetadata.value))
  }

  /** The default of `CURRENT_CLASSPATH`: 0.0.0-unknown. */
  const Unknown: SemVer := From(0, 0, 0, Some("unknown"), None)

  /** A commit sha longer than 7 characters is cut to its first 7. */
  function Abbreviate(sha: string): (r: string)
    ensures |r| <= 7 && r <= sha
    ensures |sha| <= 7 ==> r == sha
    ensures |sha| > 7 ==> |r| == 7
  {
    if |sha| > 7 then sha[..7] else sha
  }

  /** The decision logic of `fromClasspathProperties`. `parsed` is the parsed
      project version property, `None` when the file could not be read or the
      property not parsed; `gitSha` is the commit property, `None` when it or
      its file is missing. */
  function FromClasspathProperties(parsed: Option<SemVer>, gitSha: Option<string>,
                                   defaultVersion: SemVer): SemVer
  {
    if parsed.None? then defaultVersion
    else
      var v := parsed.value;
      var qualifier := Join(v.pre);
      var buildMetadata := Join(v.build);
      if buildMetadata != [] then From(v.major, v.minor, v.patch, Some(qualifier), Some(buildMetadata))
      else
        var commitSha := if gitSha.Some? then Some(Abbreviate(gitSha.value)) else None;
        From(v.major, v.minor, v.patch, Some(qualifier), commitSha)
  }

  /** Any failure to read or parse yields the default version. */
  lemma UnreadableGivesDefault(gitSha: Option<string>, defaultVersion: SemVer)
    ensures FromClasspathProperties(None, gitSha, defaultVersion) == defaultVersion
    ensures FromClasspathProperties(None, gitSha, Unknown) == SemVer(0, 0, 0, ["unknown"], [])
  {
    SplitPrefix("unknown", "");
    assert "unknown" + "" == "unknown" && Split("") == [""];
  }

  /** Build metadata already in the version property is kept as it is, and
      the commit sha is not used. */
  lemma ExistingBuildMetadataKept(v: SemVer, gitSha: Option<string>, defaultVersion: SemVer)
    requires WellFormedIds(v.pre) && WellFormedIds(v.build) && v.build != []
    ensures FromClasspathProperties(Some(v), gitSha, defaultVersion) == v
  {
    JoinNonEmpty(v.build);
    SplitJoin(v.build);
    if v.pre != [] {
      JoinNonEmpty(v.pre);
      SplitJoin(v.pre);
    }
  }

  /** Without build metadata in the property, the version keeps its core and
      pre-release part and takes the abbreviated commit sha, if any, as build
      metadata; a missing or empty sha leaves it without. */
  lemma CommitShaAsBuildMetadata(v: SemVer, gitSha: Option<string>, defaultVersion: SemVer)
    requires WellFormedIds(v.pre) && v.build == []
    ensures var r := FromClasspathProperties(Some(v), gitSha, defaultVersion);
      && r.major == v.major && r.minor == v.minor && r.patch == v.patch && r.pre == v.pre
      && (gitSha.None? || gitSha.value == [] ==> r.build == [])
      && (gitSha.Some? && gitSha.value != [] && NoDot(gitSha.value) ==>
            r.build == [Abbreviate(gitSha.value)])
  {
    if v.pre != [] {
      JoinNonEmpty(v.pre);
      SplitJoin(v.pre);
    }
    if gitSha.Some? && gitSha.value != [] && NoDot(gitSha.value) {
      var a := Abbreviate(gitSha.value);
      assert a != [];
      assert NoDot(a) by {
        forall i | 0 <= i < |a| ensures a[i] != '.' {
          assert a[i] == gitSha.value[i];
        }
      }
      SplitPrefix(a, "");
      assert a + "" == a;
    }
  }

  // ---------------------------------------------------------------------
  // Ordering
  // ---------------------------------------------------------------------

  function Sign(x: int, y: int): int {
    if x < y then -1 else if x > y then 1 else 0
  }

  predicate IsDigit(c: char) { '0' <= c <= '9' }

  predicate Numeric(id: string) {
    id != [] && forall i :: 0 <= i < |id| ==> IsDigit(id[i])
  }

  /** The value of a string of decimal digits. */
  function DigitsValue(s: string): nat
    requires forall i :: 0 <= i < |s| ==> IsDigit(s[i])
  {
    if s == [] then 0
    else
      assert IsDigit(s[|s| - 1]);
      DigitsValue(s[..|s| - 1]) * 10 + (s[|s| - 1] as int - '0' as int)
  }

  /** Strings compared character by character in code order; a proper
      prefix comes first. */
  function CompareStrings(a: string, b: string): int
  {
    if a == [] && b == [] then 0
    else if a == [] then -1
    else if b == [] then 1
    else if a[0] != b[0] then Sign(a[0] as int, b[0] as int)
    else CompareStrings(a[1..], b[1..])
  }

  /** Numeric identifiers compare by value (and, when values tie, which only
      happens with leading zeros, by their text); a numeric identifier is
      lower than an alphanumeric one; alphanumeric ones compare by text. */
  function CompareIds(a: string, b: string): int
  {
    if Numeric(a) && Numeric(b) then
      if DigitsValue(a) != DigitsValue(b) then Sign(DigitsValue(a), DigitsValue(b))
      else CompareStrings(a, b)
    else if Numeric(a) then -1
    else if Numeric(b) then 1
    else CompareStrings(a, b)
  }

  /** Identifier lists compare left to right; when one is a prefix of the
      other, the longer one is greater. */
  function CompareIdLists(a: seq<string>, b: seq<string>): int
  {
    if a == [] && b == [] then 0
    else if a == [] then -1
    else if b == [] then 1
    else if CompareIds(a[0], b[0]) != 0 then CompareIds(a[0], b[0])
    else CompareIdLists(a[1..], b[1..])
  }

  /** A version without pre-release part is higher than one with. */
  function ComparePreRelease(a: seq<string>, b: seq<string>): int
  {
    if a == [] && b == [] then 0
    else if a == [] then 1
    else if b == [] then -1
    else CompareIdLists(a, b)
  }

  /** Precedence (section 11 of Semantic Versioning 2.0.0): major, minor and
      patch numerically, then the pre-release part; build metadata is
      ignored. */
  function Precedence(a: SemVer, b: SemVer): int
  {
    if a.major != b.major then Sign(a.major, b.major)
    else if a.minor != b.minor then Sign(a.minor, b.minor)
    else if a.patch != b.patch then Sign(a.patch, b.patch)
    else ComparePreRelease(a.pre, b.pre)
  }

  /** `compareTo`: precedence, with ties broken by the build metadata. */
  function CompareTo(a: SemVer, b: SemVer): int
  {
    var p := Precedence(a, b);
    if p != 0 then p else CompareIdLists(a.build, b.build)
  }

  /** `equals`: the underlying versions compare as equal. */
  predicate Equals(a: SemVer, b: SemVer) {
    CompareTo(a, b) == 0
  }

  lemma {:induction false} CompareStringsLaws(a: string, b: string)
    ensures CompareStrings(a, b) == -CompareStrings(b, a)
    ensures CompareStrings(a, b) == 0 <==> a == b
  {
    if a != [] && b != [] && a[0] == b[0] {
      CompareStringsLaws(a[1..], b[1..]);
      if a[1..] == b[1..] {
        assert a == [a[0]] + a[1..] && b == [b[0]] + b[1..];
      }
    }
  }

  lemma CompareIdsLaws(a: string, b: string)
    ensures CompareIds(a, b) == -CompareIds(b, a)
    ensures CompareIds(a, b) == 0 <==> a == b
  {
    CompareStringsLaws(a, b);
  }

  lemma {:induction false} CompareIdListsLaws(a: seq<string>, b: seq<string>)
    ensures CompareIdLists(a, b) == -CompareIdLists(b, a)
    ensures CompareIdLists(a, b) == 0 <==> a == b
  {
    if a != [] && b != [] {
      CompareIdsLaws(a[0], b[0]);
      CompareIdListsLaws(a[1..], b[1..]);
      if a[0] == b[0] && a[1..] == b[1..] {
        assert a == [a[0]] + a[1..] && b == [b[0]] + b[1..];
      }
    }
  }

  /** Precedence is antisymmetric, and two versions have equal precedence
      exactly when they differ at most in build metadata. */
  lemma PrecedenceLaws(a: SemVer, b: SemVer)
    ensures Precedence(a, b) == -Precedence(b, a)
    ensures Precedence(a, b) == 0 <==>
              a.major == b.major && a.minor == b.minor && a.patch == b.patch && a.pre == b.pre
  {
    CompareIdListsLaws(a.pre, b.pre);
  }

  /** `compareTo` is antisymmetric and `equals` is exactly equality of all
      parts, so the two agree. */
  lemma CompareToLaws(a: SemVer, b: SemVer)
    ensures CompareTo(a, b) == -CompareTo(b, a)
    ensures Equals(a, b) <==> a == b
  {
    PrecedenceLaws(a, b);
    CompareIdListsLaws(a.build, b.build);
  }

  lemma {:induction false} CompareStringsTransitive(a: string, b: string, c: string)
    requires CompareStrings(a, b) < 0 && CompareStrings(b, c) < 0
    ensures CompareStrings(a, c) < 0
  {
    if a != [] && b != [] && c != [] && a[0] == b[0] && b[0] == c[0] {
      CompareStringsTransitive(a[1..], b[1..], c[1..]);
    }
  }

  lemma CompareIdsTransitive(a: string, b: string, c: string)
    requires CompareIds(a, b) < 0 && CompareIds(b, c) < 0
    ensures CompareIds(a, c) < 0
  {
    if Numeric(a) && Numeric(b) && Numeric(c) {
      if DigitsValue(a) == DigitsValue(b) == DigitsValue(c) {
        CompareStringsTransitive(a, b, c);
      }
    } else if !Numeric(a) && !Numeric(b) && !Numeric(c) {
      CompareStringsTransitive(a, b, c);
    }
  }

  lemma {:induction false} CompareIdListsTransitive(a: seq<string>, b: seq<string>, c: seq<string>)
    requires CompareIdLists(a, b) < 0 && CompareIdLists(b, c) < 0
    ensures CompareIdLists(a, c) < 0
  {
    if a != [] && b != [] && c != [] {
      CompareIdsLaws(a[0], b[0]);
      CompareIdsLaws(b[0], c[0]);
      CompareIdsLaws(a[0], c[0]);
      if CompareIds(a[0], b[0]) == 0 && CompareIds(b[0], c[0]) == 0 {
        CompareIdListsTransitive(a[1..], b[1..], c[1..]);
      } else if CompareIds(a[0], b[0]) < 0 && CompareIds(b[0], c[0]) < 0 {
        CompareIdsTransitive(a[0], b[0], c[0]);
      }
    }
  }

  /** Precedence orders versions: it is transitive. */
  lemma PrecedenceTransitive(a: SemVer, b: SemVer, c: SemVer)
    requires Precedence(a, b) < 0 && Precedence(b, c) < 0
    ensures Precedence(a, c) < 0
  {
    if a.major == b.major == c.major && a.minor == b.minor == c.minor && a.patch == b.patch == c.patch
       && a.pre != [] && b.pre != [] && c.pre != [] {
      CompareIdListsTransitive(a.pre, b.pre, c.pre);
    }
  }

  /** `compareTo` is transitive, so together with its antisymmetry it is a
      total order consistent with `equals`. */
  lemma CompareToTransitive(a: SemVer, b: SemVer, c: SemVer)
    requires CompareTo(a, b) < 0 && CompareTo(b, c) < 0
    ensures CompareTo(a, c) < 0
  {
    PrecedenceLaws(a, b);
    PrecedenceLaws(b, c);
    PrecedenceLaws(a, c);
    if Precedence(a, b) < 0 && Precedence(b, c) < 0 {
      PrecedenceTransitive(a, b, c);
    } else if Precedence(a, b) == 0 && Precedence(b, c) == 0 {
      CompareIdListsTransitive(a.build, b.build, c.build);
    }
  }

  /** The same version without pre-release part and build metadata. */
  function Stable(v: SemVer): SemVer {
    SemVer(v.major, v.minor, v.patch, [], [])
  }

  /** `sameOrHigher`: a release compares by precedence; a pre-release is
      compared by its stable major.minor.patch core. */
  predicate SameOrHigher(v: SemVer, other: SemVer) {
    if v.pre == [] then Precedence(v, other) >= 0
    else Precedence(Stable(v), other) >= 0
  }

  /** A pre-release counts as the same or higher than its own release
      (2.1.0-beta.2 against 2.1.0), although its precedence is lower. */
  lemma PreReleaseMeetsItsRelease(v: SemVer, build: seq<string>)
    requires v.pre != []
    ensures SameOrHigher(v, Stable(v).(build := build))
    ensures Precedence(v, Stable(v).(build := build)) < 0
  {
  }

  /** A release is the same or higher than another version exactly when it
      does not have lower precedence, build metadata aside. */
  lemma ReleaseSameOrHigher(v: SemVer, other: SemVer, build: seq<string>)
    requires v.pre == []
    ensures SameOrHigher(v, other) <==> Precedence(v, other) >= 0
    ensures SameOrHigher(v, other) <==> SameOrHigher(v.(build := build), other.(build := build))
  {
  }

  /** Every version is the same or higher than itself, and than any version
      of equal precedence. */
  lemma SameOrHigherReflexive(v: SemVer, w: SemVer)
    requires Precedence(v, w) == 0
    ensures SameOrHigher(v, v) && SameOrHigher(v, w)
  {
    PrecedenceLaws(v, w);
    PrecedenceLaws(v, v);
  }
}
