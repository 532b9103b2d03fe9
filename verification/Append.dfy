/** Names and offsets of the append-only archive (src/append.rs, and age_suffix of
    src/backend.rs). A path is the sequence of its plain components; the staging and
    `.age` suffixes are pushed onto the raw path, that is, onto its last component. */
module Append {
  type Path = seq<string>

  const STAGING_SUFFIX := ".reoftpd-partial"
  const QUARANTINE_DIR := ".quarantine"
  const AGE_SUFFIX := ".age"

  predicate WfPath(p: Path) {
    p != [] && forall i :: 0 <= i < |p| ==> p[i] != ""
  }

  function Last(p: Path): string {
    if p == [] then "" else p[|p| - 1]
  }

  function Dir(p: Path): Path {
    if p == [] then [] else p[..|p| - 1]
  }

  /** `p` lies strictly below `d`. */
  predicate Below(d: Path, p: Path) {
    |d| < |p| && d <= p
  }

  function StagingPath(p: Path): Path {
    Dir(p) + [Last(p) + STAGING_SUFFIX]
  }

  function AgeSuffix(p: Path): Path {
    Dir(p) + [Last(p) + AGE_SUFFIX]
  }

  predicate EndsWith(s: string, suffix: string) {
    |s| >= |suffix| && s[|s| - |suffix|..] == suffix
  }

  /** The name could be the staging name of some other (non-empty) name. */
  predicate IsStagingName(p: Path) {
    |Last(p)| > |STAGING_SUFFIX| && EndsWith(Last(p), STAGING_SUFFIX)
  }

  /** The name `.age` was pushed onto some (non-empty) name. */
  predicate IsAgeName(p: Path) {
    |Last(p)| > |AGE_SUFFIX| && EndsWith(Last(p), AGE_SUFFIX)
  }

  datatype OffsetVerdict = Ok | Overlap | Gap

  function ClassifyOffset(start: nat, size: nat): (v: OffsetVerdict) {
    if start == size then Ok else if start < size then Overlap else Gap
  }

  function Lower(s: string): (r: string) {
    seq(|s|, i requires 0 <= i < |s| => if 'A' <= s[i] <= 'Z' then s[i] + 32 as char else s[i])
  }

  predicate IsTestFile(name: string) {
    var lower := Lower(name);
    lower == "test" || "test." <= lower || "testftp" <= lower
  }

  /** Strips staging suffixes until none is left, never down to the empty name. */
  function Stem(s: string): (r: string)
    ensures s != "" ==> r != ""
  {
    if |s| > |STAGING_SUFFIX| && EndsWith(s, STAGING_SUFFIX) then
      Stem(s[..|s| - |STAGING_SUFFIX|])
    else
      s
  }

  /** The name a chain of staging suffixes was built on. Names that may ever share an
      inode have the same kin. */
  function Kin(p: Path): Path {
    Dir(p) + [Stem(Last(p))]
  }

  predicate IsTestPath(p: Path) {
    IsTestFile(Last(p))
  }

  lemma LowerAppend(s: string, t: string)
    ensures Lower(s + t) == Lower(s) + Lower(t)
  {
  }

  /** The same letters, each in either ASCII case; `word` is in lower case. */
  predicate Reads(s: string, word: string) {
    && |s| == |word|
    && forall i :: 0 <= i < |s| ==>
         s[i] == word[i] || ('A' <= s[i] <= 'Z' && s[i] as int + 32 == word[i] as int)
  }

  lemma LowerReads(s: string, word: string)
    requires forall i :: 0 <= i < |word| ==> !('A' <= word[i] <= 'Z')
    ensures Lower(s) == word <==> Reads(s, word)
  {
    if Reads(s, word) {
      assert forall i :: 0 <= i < |s| ==> Lower(s)[i] == word[i];
    }
    if Lower(s) == word {
      assert forall i :: 0 <= i < |s| ==> Lower(s)[i] == word[i];
    }
  }

  /** A name is a connection-test name exactly if it is `test`, or begins with `test.` or `testftp`,
      in any mix of ASCII cases. */
  lemma ProbeNamesExactly(s: string)
    ensures IsTestFile(s) <==>
              || Reads(s, "test")
              || (|s| >= 5 && Reads(s[..5], "test."))
              || (|s| >= 7 && Reads(s[..7], "testftp"))
  {
    LowerReads(s, "test");
    if |s| >= 5 {
      LowerReads(s[..5], "test.");
      assert Lower(s)[..5] == Lower(s[..5]);
    }
    if |s| >= 7 {
      LowerReads(s[..7], "testftp");
      assert Lower(s)[..7] == Lower(s[..7]);
    }
  }

  /** Pushing the staging suffix or `.age` onto a name neither makes a connection-test
      probe out of a capture nor the other way round. */
  lemma SuffixKeepsTestStatus(s: string)
    ensures IsTestFile(s + STAGING_SUFFIX) == IsTestFile(s)
    ensures IsTestFile(s + AGE_SUFFIX) == IsTestFile(s)
  {
    DottedSuffixKeepsTestStatus(s, STAGING_SUFFIX);
    DottedSuffixKeepsTestStatus(s, AGE_SUFFIX);
  }

  lemma DottedSuffixKeepsTestStatus(s: string, suffix: string)
    requires suffix != "" && suffix[0] == '.'
    ensures IsTestFile(s + suffix) == IsTestFile(s)
  {
    LowerAppend(s, suffix);
    var l, t := Lower(s), Lower(s + suffix);
    assert t[|s|] == '.' && t[..|s|] == l;
    if "test." <= t && |s| < 5 {
      assert "test."[|s|] == '.';
      assert |s| == 4 && l == t[..4] == "test";
    }
    assert forall i :: 0 <= i < 7 ==> "testftp"[i] != '.';
    if l == "test" {
      assert t[..5] == l + ['.'] == "test.";
    }
  }

  lemma {:induction false} StemKeepsTestStatus(s: string)
    ensures IsTestFile(Stem(s)) == IsTestFile(s)
    decreases |s|
  {
    if |s| > |STAGING_SUFFIX| && EndsWith(s, STAGING_SUFFIX) {
      var t := s[..|s| - |STAGING_SUFFIX|];
      assert s == t + STAGING_SUFFIX;
      StemKeepsTestStatus(t);
      SuffixKeepsTestStatus(t);
    }
  }

  lemma KinKeepsTestStatus(p: Path)
    ensures IsTestPath(Kin(p)) == IsTestPath(p)
  {
    StemKeepsTestStatus(Last(p));
  }

  lemma KinOfStaging(p: Path)
    requires WfPath(p)
    ensures WfPath(StagingPath(p)) && IsStagingName(StagingPath(p))
    ensures Kin(StagingPath(p)) == Kin(p)
    ensures IsTestPath(StagingPath(p)) == IsTestPath(p)
  {
    var s := Last(p) + STAGING_SUFFIX;
    assert s[|s| - |STAGING_SUFFIX|..] == STAGING_SUFFIX && s[..|s| - |STAGING_SUFFIX|] == Last(p);
    assert Last(StagingPath(p)) == s && Dir(StagingPath(p)) == Dir(p);
    SuffixKeepsTestStatus(Last(p));
  }

  lemma KinOfPlainName(p: Path)
    requires p != [] && !IsStagingName(p)
    ensures Kin(p) == p
  {
    assert p == Dir(p) + [Last(p)];
  }

  lemma StagingPathInjective(p: Path, q: Path)
    requires p != [] && q != [] && StagingPath(p) == StagingPath(q)
    ensures p == q
  {
    var s := StagingPath(p);
    assert Dir(s) == Dir(p) && Dir(s) == Dir(q);
    assert Last(s) == Last(p) + STAGING_SUFFIX == Last(q) + STAGING_SUFFIX;
    assert Last(p) == Last(s)[..|Last(s)| - |STAGING_SUFFIX|] == Last(q);
    assert p == Dir(p) + [Last(p)] && q == Dir(q) + [Last(q)];
  }

  /** An encrypted final name cannot be mistaken for a staging name. */
  lemma AgeNameIsPlain(p: Path)
    requires IsAgeName(p)
    ensures !IsStagingName(p)
  {
    assert AGE_SUFFIX[|AGE_SUFFIX| - 1] == 'e' && STAGING_SUFFIX[|STAGING_SUFFIX| - 1] == 'l';
    var s := Last(p);
    assert s[|s| - |AGE_SUFFIX|..][|AGE_SUFFIX| - 1] == s[|s| - 1];
  }

  /** The `.age` name of a capture is an encrypted final name, still not a probe's name, and
      never a staging name. */
  lemma AgeSuffixNames(p: Path)
    requires WfPath(p)
    ensures WfPath(AgeSuffix(p)) && IsAgeName(AgeSuffix(p)) && !IsStagingName(AgeSuffix(p))
    ensures IsTestPath(AgeSuffix(p)) == IsTestPath(p)
  {
    var s := Last(p) + AGE_SUFFIX;
    assert Last(AgeSuffix(p)) == s && s[|s| - |AGE_SUFFIX|..] == AGE_SUFFIX;
    AgeNameIsPlain(AgeSuffix(p));
    SuffixKeepsTestStatus(Last(p));
  }
}
