/** `compare_versions` of dependency_analysis/utils.py: does a concrete version fall
    inside a one-operator vulnerability range such as "<2.20.0"? */
module VersionRanges {
  import opened Wrappers
  import opened Text

  datatype Op = Lt | Le | Gt | Ge | Eq

  /** The alternatives of the pattern `(<|<=|>|>=|==)(.*)`, in the order in which the
      regular-expression engine tries them. */
  const Alternatives: seq<(string, Op)> := [("<", Lt), ("<=", Le), (">", Gt), (">=", Ge), ("==", Eq)]

  /** The first alternative that is a prefix of `s`. Since `(.*)` matches whatever
      follows, the engine never backtracks into a later alternative. */
  function FirstAlternative(s: string, alts: seq<(string, Op)>): (r: Option<(string, Op)>)
    ensures r.Some? ==> StartsWith(s, r.value.0) && r.value in alts
    ensures r.None? ==> forall k :: 0 <= k < |alts| ==> !StartsWith(s, alts[k].0)
  {
    if alts == [] then None
    else if StartsWith(s, alts[0].0) then Some(alts[0])
    else FirstAlternative(s, alts[1..])
  }

  /** What `(.*)` captures: the text up to the first newline, since `.` does not
      match a newline. */
  function UpToNewline(s: string): (r: string)
    ensures StartsWith(s, r) && '\n' !in r
    ensures |r| < |s| ==> s[|r|] == '\n'
  {
    if s == [] || s[0] == '\n' then [] else [s[0]] + UpToNewline(s[1..])
  }

  /** `re.match(r'(<|<=|>|>=|==)(.*)', range)`: the operator group and the captured bound,
      or None when the range does not start with an operator. */
  function MatchRange(range: string): Option<(Op, string)>
  {
    match FirstAlternative(range, Alternatives)
    case None => None
    case Some(alt) => Some((alt.1, UpToNewline(range[|alt.0|..])))
  }

  /** `[int(x) for x in v.split('.') if x.isdigit()]`. */
  function NumericParts(v: string): seq<nat>
  {
    DigitSegments(Split(v, "."))
  }

  function DigitSegments(segments: seq<string>): seq<nat>
  {
    if segments == [] then []
    else
      var last := segments[|segments| - 1];
      DigitSegments(segments[..|segments| - 1]) + (if IsDigits(last) then [ParseNat(last)] else [])
  }

  function Zeros(n: nat): (z: seq<nat>)
    ensures |z| == n && forall i :: 0 <= i < n ==> z[i] == 0
  {
    if n == 0 then [] else Zeros(n - 1) + [0]
  }

  /** The parts after `while len(parts) < 3: parts.append(0)`. */
  function Padded(parts: seq<nat>): seq<nat>
  {
    if |parts| >= 3 then parts else parts + Zeros(3 - |parts|)
  }

  /** Python's `<` on lists of integers: lexicographic, a proper prefix being smaller. */
  predicate LexLess(a: seq<nat>, b: seq<nat>)
  {
    if a == [] then b != []
    else if b == [] then false
    else if a[0] != b[0] then a[0] < b[0]
    else LexLess(a[1..], b[1..])
  }

  /** The list comparison that `op` selects. */
  predicate Holds(op: Op, c: seq<nat>, t: seq<nat>)
  {
    match op
    case Lt => LexLess(c, t)
    case Le => !LexLess(t, c)
    case Gt => LexLess(t, c)
    case Ge => !LexLess(c, t)
    case Eq => c == t
  }

  /** The value `compare_versions(current, range)` returns. */
  predicate VersionMatches(current: string, range: string)
  {
    match MatchRange(range)
    case None => false
    case Some(m) => Holds(m.0, Padded(NumericParts(current)), Padded(NumericParts(m.1)))
  }

  /** Padding a short list by one more zero does not change what it pads to. */
  lemma PadSnoc(parts: seq<nat>)
    requires |parts| < 3
    ensures Padded(parts + [0]) == Padded(parts)
  {
    var n := 3 - |parts|;
    assert Zeros(n) == [0] + Zeros(n - 1) by {
      var z := [0] + Zeros(n - 1);
      assert |z| == n && forall i :: 0 <= i < n ==> z[i] == 0;
    }
    assert parts + Zeros(n) == (parts + [0]) + Zeros(n - 1);
  }

  /** compare_versions: pads both part lists with `while ... append(0)` loops and then
      compares them with the operator the pattern read. */
  method CompareVersions(current: string, range: string) returns (matched: bool)
    ensures matched == VersionMatches(current, range)
  {
    var m := MatchRange(range);
    if m.None? {
      return false;
    }
    var op, target := m.value.0, m.value.1;
    var cParts := NumericParts(current);
    var tParts := NumericParts(target);
    while |cParts| < 3
      invariant Padded(cParts) == Padded(NumericParts(current))
      decreases 3 - |cParts|
    {
      PadSnoc(cParts);
      cParts := cParts + [0];
    }
    while |tParts| < 3
      invariant Padded(tParts) == Padded(NumericParts(target))
      decreases 3 - |tParts|
    {
      PadSnoc(tParts);
      tParts := tParts + [0];
    }
    match op
    case Lt => matched := LexLess(cParts, tParts);
    case Le => matched := !LexLess(tParts, cParts);
    case Gt => matched := LexLess(tParts, cParts);
    case Ge => matched := !LexLess(cParts, tParts);
    case Eq => matched := cParts == tParts;
  }

  // ---- the pattern's operators ----

  /** Which operator the pattern reads, for every range: `<` wins over `<=` and `>` over
      `>=` because they are tried first, and a range with no leading `<`, `>` or `==`
      does not match at all. */
  lemma {:induction false} RangeOperator(range: string)
    ensures StartsWith(range, "<") ==> MatchRange(range) == Some((Lt, UpToNewline(range[1..])))
    ensures !StartsWith(range, "<") && StartsWith(range, ">") ==>
              MatchRange(range) == Some((Gt, UpToNewline(range[1..])))
    ensures !StartsWith(range, "<") && !StartsWith(range, ">") && StartsWith(range, "==") ==>
              MatchRange(range) == Some((Eq, UpToNewline(range[2..])))
    ensures !StartsWith(range, "<") && !StartsWith(range, ">") && !StartsWith(range, "==") ==>
              MatchRange(range).None?
  {
    var alts := Alternatives;
    if !StartsWith(range, "<") {
      PrefixOfPrefix(range, "<=", "<");
      if !StartsWith(range, ">") {
        PrefixOfPrefix(range, ">=", ">");
        assert FirstAlternative(range, alts) == FirstAlternative(range, alts[4..]);
      } else {
        assert FirstAlternative(range, alts) == FirstAlternative(range, alts[2..]);
      }
    }
  }

  lemma PrefixOfPrefix(s: string, long: string, short: string)
    requires StartsWith(long, short)
    ensures StartsWith(s, long) ==> StartsWith(s, short)
  {
    if StartsWith(s, long) {
      assert s[..|short|] == s[..|long|][..|short|];
    }
  }

  /** The `<=` and `>=` branches of compare_versions are unreachable. */
  lemma NeverLeOrGe(range: string)
    ensures MatchRange(range).Some? ==> MatchRange(range).value.0 in {Lt, Gt, Eq}
  {
    RangeOperator(range);
  }

  /** A range without a leading operator is never matched, whatever the version. */
  lemma NoOperatorNeverMatches(current: string, range: string)
    requires !StartsWith(range, "<") && !StartsWith(range, ">") && !StartsWith(range, "==")
    ensures !VersionMatches(current, range)
  {
    RangeOperator(range);
  }

  // ---- padding and the list order ----

  /** Padding keeps the parts and appends zeros up to three; longer lists are not cut. */
  lemma PaddedShape(parts: seq<nat>)
    ensures |Padded(parts)| == if |parts| >= 3 then |parts| else 3
    ensures Padded(parts)[..|parts|] == parts
    ensures forall i :: |parts| <= i < |Padded(parts)| ==> Padded(parts)[i] == 0
  {
  }

  lemma {:induction false} LexLessIrreflexive(a: seq<nat>)
    ensures !LexLess(a, a)
    decreases |a|
  {
    if a != [] {
      LexLessIrreflexive(a[1..]);
    }
  }

  lemma {:induction false} LexLessTransitive(a: seq<nat>, b: seq<nat>, c: seq<nat>)
    requires LexLess(a, b) && LexLess(b, c)
    ensures LexLess(a, c)
    decreases |a|
  {
    if a != [] && a[0] == b[0] && b[0] == c[0] {
      LexLessTransitive(a[1..], b[1..], c[1..]);
    }
  }

  /** Any two different lists are ordered one way or the other, so `<=` is "less or equal". */
  lemma {:induction false} LexLessTotal(a: seq<nat>, b: seq<nat>)
    ensures a == b || LexLess(a, b) || LexLess(b, a)
    decreases |a|
  {
    if a != [] && b != [] && a[0] == b[0] {
      LexLessTotal(a[1..], b[1..]);
      if a[1..] == b[1..] {
        assert a == [a[0]] + a[1..] && b == [b[0]] + b[1..];
      }
    }
  }

  lemma NoDot(a: string)
    requires forall j :: 0 <= j < |a| ==> a[j] != '.'
    ensures !Contains(a, ".")
  {
    forall j | 0 <= j && j + 1 <= |a|
      ensures !OccursAt(a, ".", j)
    {
      assert a[j..j + 1] == [a[j]];
    }
  }

  /** Splitting at a first dot that follows a dot-free segment. */
  lemma SplitAtDot(v: string, a: string, rest: string)
    requires forall j :: 0 <= j < |a| ==> a[j] != '.'
    requires v == a + "." + rest
    ensures Split(v, ".") == [a] + Split(rest, ".")
  {
    assert OccursAt(v, ".", |a|);
    forall j | 0 <= j < |a|
      ensures !OccursAt(v, ".", j)
    {
      assert v[j..j + 1][0] == a[j];
    }
    assert Find(v, ".") == Some(|a|);
    assert v[..|a|] == a && v[|a| + 1..] == rest;
  }

  lemma OneSegment(a: string)
    requires forall j :: 0 <= j < |a| ==> a[j] != '.'
    ensures Split(a, ".") == [a]
  {
    NoDot(a);
  }

  lemma DigitSegmentsThree(a: string, b: string, c: string)
    ensures DigitSegments([a, b, c]) ==
      (if IsDigits(a) then [ParseNat(a)] else []) + (if IsDigits(b) then [ParseNat(b)] else [])
      + (if IsDigits(c) then [ParseNat(c)] else [])
  {
    assert [a, b, c][..2] == [a, b];
    DigitSegmentsTwo(a, b);
  }

  lemma DigitSegmentsTwo(a: string, b: string)
    ensures DigitSegments([a, b]) ==
      (if IsDigits(a) then [ParseNat(a)] else []) + (if IsDigits(b) then [ParseNat(b)] else [])
  {
    assert [a, b][..1] == [a];
    assert [a][..0] == [];
    assert DigitSegments([a]) == (if IsDigits(a) then [ParseNat(a)] else []);
  }

  /** A version made of three dot-free segments splits into them. */
  lemma SplitThree(v: string, a: string, b: string, c: string)
    requires forall j :: 0 <= j < |a| ==> a[j] != '.'
    requires forall j :: 0 <= j < |b| ==> b[j] != '.'
    requires forall j :: 0 <= j < |c| ==> c[j] != '.'
    requires v == a + "." + b + "." + c
    ensures Split(v, ".") == [a, b, c]
  {
    var bc := b + "." + c;
    assert v == a + "." + bc;
    SplitAtDot(v, a, bc);
    SplitTwo(bc, b, c);
  }

  /** A version made of two dot-free segments splits into them. */
  lemma SplitTwo(v: string, a: string, b: string)
    requires forall j :: 0 <= j < |a| ==> a[j] != '.'
    requires forall j :: 0 <= j < |b| ==> b[j] != '.'
    requires v == a + "." + b
    ensures Split(v, ".") == [a, b]
  {
    SplitAtDot(v, a, b);
    OneSegment(b);
  }

  /** The parts of a version made of three dot-separated segments. */
  lemma ThreeSegments(v: string, a: string, b: string, c: string)
    requires forall j :: 0 <= j < |a| ==> a[j] != '.'
    requires forall j :: 0 <= j < |b| ==> b[j] != '.'
    requires forall j :: 0 <= j < |c| ==> c[j] != '.'
    requires v == a + "." + b + "." + c
    ensures NumericParts(v) == DigitSegments([a, b, c])
  {
    SplitThree(v, a, b, c);
  }

  /** Only all-digit segments count: "v1.2.3" gives [2, 3] and "1.0rc1" gives [1]. */
  lemma NonDigitSegmentsDropped()
    ensures NumericParts("v1.2.3") == [2, 3]
    ensures NumericParts("1.0rc1") == [1]
  {
    LeadingLetterDropped();
    TrailingTagDropped();
  }

  lemma LeadingLetterDropped()
    ensures NumericParts("v1.2.3") == [2, 3]
  {
    LetterSplit();
    assert !IsDigits("v1") by { assert "v1"[0] == 'v'; }
    DigitSegmentsThree("v1", "2", "3");
    assert ParseNat("2") == 2 && ParseNat("3") == 3;
  }

  lemma LetterSplit()
    ensures Split("v1.2.3", ".") == ["v1", "2", "3"]
  {
    SplitThree("v1.2.3", "v1", "2", "3");
  }

  lemma TrailingTagDropped()
    ensures NumericParts("1.0rc1") == [1]
  {
    TagSplit();
    TagNotDigits();
    DigitSegmentsTwo("1", "0rc1");
    assert ParseNat("1") == 1;
  }

  lemma TagSplit()
    ensures Split("1.0rc1", ".") == ["1", "0rc1"]
  {
    SplitTwo("1.0rc1", "1", "0rc1");
  }

  lemma TagNotDigits()
    ensures !IsDigits("0rc1")
  {
    assert "0rc1"[1] == 'r';
  }

  // ---- the ranges of MOCK_VULNDB as test vectors ----

  datatype Advisory = Advisory(range: string, cve: string, severity: string, desc: string)

  /** MOCK_VULNDB; no function of the core reads it, so it serves only as test vectors. */
  const MockVulnDb: map<string, seq<Advisory>> := map[
    "requests" := [Advisory("<2.20.0", "CVE-2018-18074", "High", "Redirect handling vulnerability"),
                   Advisory("<2.0.0", "CVE-2015-2296", "Medium", "Session fixation")],
    "django" := [Advisory("<3.2.10", "CVE-2021-45115", "High", "Denial-of-service possibility in UserAttributeSimilarityValidator"),
                 Advisory("<4.0.1", "CVE-2022-22818", "Medium", "XSS in debug page")],
    "lodash" := [Advisory("<4.17.21", "CVE-2021-23337", "Critical", "Command Injection via template")]
  ]

  lemma ThreePartVersion(v: string, a: string, b: string, c: string)
    requires IsDigits(a) && IsDigits(b) && IsDigits(c)
    requires v == a + "." + b + "." + c
    ensures NumericParts(v) == [ParseNat(a), ParseNat(b), ParseNat(c)]
  {
    ThreeSegments(v, a, b, c);
    DigitSegmentsThree(a, b, c);
  }

  /** A vector's outcome from the operator it reads and the parts on both sides. */
  lemma Vector(current: string, range: string, op: Op, bound: string, c: seq<nat>, t: seq<nat>)
    requires MatchRange(range) == Some((op, bound))
    requires NumericParts(current) == c && NumericParts(bound) == t
    ensures VersionMatches(current, range) == Holds(op, Padded(c), Padded(t))
  {
  }

  lemma LeadingLess(range: string)
    requires StartsWith(range, "<") && '\n' !in range
    ensures MatchRange(range) == Some((Lt, range[1..]))
  {
    RangeOperator(range);
    assert '\n' !in range[1..] by { assert forall c :: c in range[1..] ==> c in range; }
    NoNewlineCaptured(range[1..]);
  }

  lemma LeadingEquals(range: string)
    requires StartsWith(range, "==") && '\n' !in range
    ensures MatchRange(range) == Some((Eq, range[2..]))
  {
    assert !StartsWith(range, "<") && !StartsWith(range, ">") by {
      assert range[..1][0] == range[0] == '=';
    }
    RangeOperator(range);
    assert '\n' !in range[2..] by { assert forall c :: c in range[2..] ==> c in range; }
    NoNewlineCaptured(range[2..]);
  }

  lemma {:induction false} NoNewlineCaptured(s: string)
    requires '\n' !in s
    ensures UpToNewline(s) == s
    decreases |s|
  {
    if s != [] {
      assert '\n' !in s[1..] by { assert forall c :: c in s[1..] ==> c in s; }
      NoNewlineCaptured(s[1..]);
    }
  }

  lemma Parts100() ensures NumericParts("1.0.0") == [1, 0, 0]
  {
    ThreePartVersion("1.0.0", "1", "0", "0");
    assert ParseNat("1") == 1 && ParseNat("0") == 0;
  }

  lemma Parts300() ensures NumericParts("3.0.0") == [3, 0, 0]
  {
    ThreePartVersion("3.0.0", "3", "0", "0");
    assert ParseNat("3") == 3 && ParseNat("0") == 0;
  }

  lemma Parts200() ensures NumericParts("2.0.0") == [2, 0, 0]
  {
    ThreePartVersion("2.0.0", "2", "0", "0");
    assert ParseNat("2") == 2 && ParseNat("0") == 0;
  }

  lemma Parts2200() ensures NumericParts("2.20.0") == [2, 20, 0]
  {
    assert IsDigits("20") by { assert "20"[0] == '2' && "20"[1] == '0'; }
    ThreePartVersion("2.20.0", "2", "20", "0");
    assert ParseNat("20") == 20 by { assert "20"[..1] == "2"; }
    assert ParseNat("2") == 2 && ParseNat("0") == 0;
  }

  lemma Parts417(last: string, n: nat)
    requires last == "20" || last == "21"
    requires n == if last == "20" then 20 else 21
    ensures NumericParts("4.17." + last) == [4, 17, n]
  {
    assert IsDigits("17") by { assert "17"[0] == '1' && "17"[1] == '7'; }
    assert IsDigits(last) by { assert last[0] == '2' && IsDigit(last[1]); }
    ThreePartVersion("4.17." + last, "4", "17", last);
    assert ParseNat("17") == 17 by { assert "17"[..1] == "1"; }
    assert ParseNat(last) == n by { assert last[..1] == "2"; }
    assert ParseNat("4") == 4;
  }

  lemma Requests2200()
    ensures VersionMatches("1.0.0", "<2.20.0") && !VersionMatches("3.0.0", "<2.20.0")
  {
    LeadingLess("<2.20.0");
    assert "<2.20.0"[1..] == "2.20.0";
    Parts100();
    Parts300();
    Parts2200();
    Vector("1.0.0", "<2.20.0", Lt, "2.20.0", [1, 0, 0], [2, 20, 0]);
    Vector("3.0.0", "<2.20.0", Lt, "2.20.0", [3, 0, 0], [2, 20, 0]);
  }

  lemma Requests200()
    ensures VersionMatches("1.0.0", "<2.0.0") && !VersionMatches("3.0.0", "<2.0.0")
  {
    LeadingLess("<2.0.0");
    assert "<2.0.0"[1..] == "2.0.0";
    Parts100();
    Parts300();
    Parts200();
    Vector("1.0.0", "<2.0.0", Lt, "2.0.0", [1, 0, 0], [2, 0, 0]);
    Vector("3.0.0", "<2.0.0", Lt, "2.0.0", [3, 0, 0], [2, 0, 0]);
  }

  /** lodash 4.17.20 lies inside the lodash range, 4.17.21 does not. */
  lemma LodashRange()
    ensures VersionMatches("4.17.20", "<4.17.21") && !VersionMatches("4.17.21", "<4.17.21")
  {
    LeadingLess("<4.17.21");
    assert "<4.17.21"[1..] == "4.17.21";
    Parts417("20", 20);
    Parts417("21", 21);
    assert "4.17." + "20" == "4.17.20" && "4.17." + "21" == "4.17.21";
    Vector("4.17.20", "<4.17.21", Lt, "4.17.21", [4, 17, 20], [4, 17, 21]);
    Vector("4.17.21", "<4.17.21", Lt, "4.17.21", [4, 17, 21], [4, 17, 21]);
    LexLessIrreflexive([4, 17, 21]);
  }

  /** The MOCK_VULNDB ranges as test vectors: requests 1.0.0 is inside every requests
      range and 3.0.0 inside none; lodash 4.17.20 is inside the lodash range. */
  lemma MockRangesAsTestVectors()
    ensures |MockVulnDb["requests"]| == 2
    ensures VersionMatches("1.0.0", MockVulnDb["requests"][0].range)
    ensures VersionMatches("1.0.0", MockVulnDb["requests"][1].range)
    ensures !VersionMatches("3.0.0", MockVulnDb["requests"][0].range)
    ensures !VersionMatches("3.0.0", MockVulnDb["requests"][1].range)
    ensures VersionMatches("4.17.20", MockVulnDb["lodash"][0].range)
    ensures !VersionMatches("4.17.21", MockVulnDb["lodash"][0].range)
  {
    assert MockVulnDb["requests"][0].range == "<2.20.0";
    assert MockVulnDb["requests"][1].range == "<2.0.0";
    assert MockVulnDb["lodash"][0].range == "<4.17.21";
    Requests2200();
    Requests200();
    LodashRange();
  }

  lemma PartsOneTwo() ensures NumericParts("1.2") == [1, 2]
  {
    SplitTwo("1.2", "1", "2");
    DigitSegmentsTwo("1", "2");
    assert ParseNat("1") == 1 && ParseNat("2") == 2;
  }

  lemma Parts120() ensures NumericParts("1.2.0") == [1, 2, 0]
  {
    ThreePartVersion("1.2.0", "1", "2", "0");
    assert ParseNat("1") == 1 && ParseNat("2") == 2 && ParseNat("0") == 0;
  }

  /** "1.2" and "1.2.0" are equal once padded. */
  lemma PaddingEquates()
    ensures VersionMatches("1.2", "==1.2.0")
  {
    LeadingEquals("==1.2.0");
    assert "==1.2.0"[2..] == "1.2.0";
    PartsOneTwo();
    Parts120();
    Vector("1.2", "==1.2.0", Eq, "1.2.0", [1, 2], [1, 2, 0]);
  }

  lemma PartsEqualsBound() ensures NumericParts("=1.0.0") == [0, 0]
  {
    ThreeSegments("=1.0.0", "=1", "0", "0");
    assert !IsDigits("=1") by { assert "=1"[0] == '='; }
    DigitSegmentsThree("=1", "0", "0");
    assert ParseNat("0") == 0;
  }

  /** "<=1.0.0" is read as `<` with the bound "=1.0.0", whose first segment is dropped,
      so 1.0.0 is not inside it although it is equal to the bound. */
  lemma LessEqualReadAsLess()
    ensures !VersionMatches("1.0.0", "<=1.0.0")
  {
    LeadingLess("<=1.0.0");
    assert "<=1.0.0"[1..] == "=1.0.0";
    Parts100();
    PartsEqualsBound();
    Vector("1.0.0", "<=1.0.0", Lt, "=1.0.0", [1, 0, 0], [0, 0]);
  }

  // ---- the evidently intended reading ----

  /** The alternatives with the two-character operators tried first, so that every
      operator the docstring lists can be read. */
  const IntendedAlternatives: seq<(string, Op)> := [("<=", Le), ("<", Lt), (">=", Ge), (">", Gt), ("==", Eq)]

  function IntendedMatchRange(range: string): Option<(Op, string)>
  {
    match FirstAlternative(range, IntendedAlternatives)
    case None => None
    case Some(alt) => Some((alt.1, UpToNewline(range[|alt.0|..])))
  }

  /** compare_versions with the intended alternation order. */
  predicate IntendedMatches(current: string, range: string)
  {
    match IntendedMatchRange(range)
    case None => false
    case Some(m) => Holds(m.0, Padded(NumericParts(current)), Padded(NumericParts(m.1)))
  }

  /** Which operator the intended pattern reads: `<=` and `>=` when present, and the
      same operator as before otherwise. */
  lemma IntendedOperator(range: string)
    ensures StartsWith(range, "<=") ==> IntendedMatchRange(range) == Some((Le, UpToNewline(range[2..])))
    ensures StartsWith(range, ">=") ==> IntendedMatchRange(range) == Some((Ge, UpToNewline(range[2..])))
    ensures !StartsWith(range, "<=") && !StartsWith(range, ">=") ==> IntendedMatchRange(range) == MatchRange(range)
  {
    if StartsWith(range, ">=") {
      IntendedGreaterEqual(range);
    } else if !StartsWith(range, "<=") {
      IntendedOther(range);
    }
  }

  lemma IntendedGreaterEqual(range: string)
    requires StartsWith(range, ">=")
    ensures IntendedMatchRange(range) == Some((Ge, UpToNewline(range[2..])))
  {
    var alts := IntendedAlternatives;
    assert range[..1][0] == range[..2][0] == '>';
    assert FirstAlternative(range, alts) == FirstAlternative(range, alts[2..]);
  }

  lemma IntendedOther(range: string)
    requires !StartsWith(range, "<=") && !StartsWith(range, ">=")
    ensures IntendedMatchRange(range) == MatchRange(range)
  {
    var alts := IntendedAlternatives;
    RangeOperator(range);
    assert FirstAlternative(range, alts) == FirstAlternative(range, alts[1..]);
    if !StartsWith(range, "<") {
      assert FirstAlternative(range, alts) == FirstAlternative(range, alts[3..]);
      if !StartsWith(range, ">") {
        assert FirstAlternative(range, alts) == FirstAlternative(range, alts[4..]);
      }
    }
  }

  /** The correction changes only ranges that start with `<=` or `>=`, and there the
      operator means "less than or equal" and "greater than or equal" of the padded parts. */
  lemma IntendedMeaning(current: string, range: string)
    ensures !StartsWith(range, "<=") && !StartsWith(range, ">=") ==>
              (IntendedMatches(current, range) <==> VersionMatches(current, range))
    ensures StartsWith(range, "<=") ==>
              var c, t := Padded(NumericParts(current)), Padded(NumericParts(UpToNewline(range[2..])));
              (IntendedMatches(current, range) <==> c == t || LexLess(c, t))
    ensures StartsWith(range, ">=") ==>
              var c, t := Padded(NumericParts(current)), Padded(NumericParts(UpToNewline(range[2..])));
              (IntendedMatches(current, range) <==> c == t || LexLess(t, c))
  {
    IntendedOperator(range);
    if StartsWith(range, "<=") || StartsWith(range, ">=") {
      var c, t := Padded(NumericParts(current)), Padded(NumericParts(UpToNewline(range[2..])));
      LexLessTotal(c, t);
      LexLessIrreflexive(c);
      if LexLess(c, t) && LexLess(t, c) {
        LexLessTransitive(c, t, c);
      }
    }
  }

  lemma IntendedLeadingLessEqual(range: string)
    requires StartsWith(range, "<=") && '\n' !in range
    ensures IntendedMatchRange(range) == Some((Le, range[2..]))
  {
    IntendedOperator(range);
    assert '\n' !in range[2..] by { assert forall c :: c in range[2..] ==> c in range; }
    NoNewlineCaptured(range[2..]);
  }

  /** With the intended order, 1.0.0 is inside "<=1.0.0". */
  lemma IntendedLessEqual()
    ensures IntendedMatches("1.0.0", "<=1.0.0")
  {
    var range := "<=1.0.0";
    IntendedLeadingLessEqual(range);
    assert range[2..] == "1.0.0";
    Parts100();
    LexLessIrreflexive([1, 0, 0]);
  }
}
