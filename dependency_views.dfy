/** `upload_dependency_view` of dependency_analysis/views.py: the checks on the uploaded
    file names, the choice of ecosystem from the first file, and the two counts of the
    saved scan report. */
module DependencyViews {
  import opened Wrappers
  import opened Text
  import opened DependencyParsing
  import opened VulnerabilityCheck

  datatype Ecosystem = Npm | PyPI

  /** The ecosystem string sent to the OSV service. */
  function EcosystemName(e: Ecosystem): string
  {
    match e
    case Npm => "npm"
    case PyPI => "PyPI"
  }

  const NoFileSelected := "No file selected"
  const UnsupportedType := "Unsupported file type. We only support package.json, requirements.txt, and Pipfile."
  const MixedTypes := "Mixed file types. Please upload files from the same ecosystem."

  /** Lines 15-20: the ecosystem named by the first file, None when `ecosystem` is never
      assigned. The names are compared as given, without lower-casing. */
  function Classify(name: string): Option<Ecosystem>
  {
    if EndsWith(name, "package.json") then Some(Npm)
    else if name == "Pipfile" then Some(PyPI)
    else if EndsWith(name, "requirements.txt") then Some(PyPI)
    else None
  }

  /** Line 23: the names the view accepts at all. */
  predicate IsSupported(name: string) {
    EndsWith(name, ".json") || EndsWith(name, ".txt") || name == "Pipfile"
  }

  /** Lines 26 and 29: the names that belong to an ecosystem. */
  predicate Fits(e: Ecosystem, name: string) {
    match e
    case Npm => EndsWith(name, ".json")
    case PyPI => EndsWith(name, ".txt") || name == "Pipfile"
  }

  /** What the view decides: go on with an ecosystem, return an error page with a
      message, or raise. */
  datatype Validation = Accepted(ecosystem: Ecosystem) | Rejected(message: string) | Raised

  /** Lines 23-30 for one file: None when the file passes, otherwise the view's answer.
      Reading an unassigned `ecosystem` at line 26 raises. */
  function FileVerdict(eco: Option<Ecosystem>, name: string): (r: Option<Validation>)
    ensures r.Some? ==> !r.value.Accepted?
  {
    if !IsSupported(name) then Some(Rejected(UnsupportedType))
    else if eco.None? then Some(Raised)
    else if !Fits(eco.value, name) then Some(Rejected(MixedTypes))
    else None
  }

  /** The verdict of the first file that does not pass, if any. */
  function FirstVerdict(eco: Option<Ecosystem>, names: seq<string>): (r: Option<Validation>)
    ensures r.Some? ==> !r.value.Accepted?
  {
    if names == [] then None
    else if FileVerdict(eco, names[0]).Some? then FileVerdict(eco, names[0])
    else FirstVerdict(eco, names[1..])
  }

  /** Lines 8-30: the decision over the uploaded names. An absent upload field is the
      empty list, since a present one always holds a file. */
  function Validate(names: seq<string>): Validation
  {
    if names == [] then Rejected(NoFileSelected)
    else
      var eco := Classify(names[0]);
      match FirstVerdict(eco, names)
      case Some(v) => v
      case None => Accepted(eco.value)
  }

  function Names(files: seq<UploadedFile>): (names: seq<string>)
    ensures |names| == |files| && forall i :: 0 <= i < |files| ==> names[i] == files[i].name
  {
    seq(|files|, i requires 0 <= i < |files| => files[i].name)
  }

  /** Lines 9-30 as the view runs them: the ecosystem assigned in branches, then the
      loop over the files with its early returns. */
  method ValidateUpload(names: seq<string>) returns (v: Validation)
    ensures v == Validate(names)
  {
    if |names| == 0 {
      return Rejected(NoFileSelected);
    }
    var first := names[0];
    var ecosystem: Option<Ecosystem> := None;
    if EndsWith(first, "package.json") {
      ecosystem := Some(Npm);
    } else if first == "Pipfile" {
      ecosystem := Some(PyPI);
    } else if EndsWith(first, "requirements.txt") {
      ecosystem := Some(PyPI);
    }
    assert ecosystem == Classify(first);
    var i := 0;
    while i < |names|
      invariant 0 <= i <= |names|
      invariant FirstVerdict(ecosystem, names) == FirstVerdict(ecosystem, names[i..])
    {
      var name := names[i];
      assert names[i..][1..] == names[i + 1..];
      if !(EndsWith(name, ".json") || EndsWith(name, ".txt") || name == "Pipfile") {
        return Rejected(UnsupportedType);
      }
      if ecosystem.None? {
        return Raised;
      }
      if ecosystem == Some(Npm) && !EndsWith(name, ".json") {
        return Rejected(MixedTypes);
      }
      if ecosystem == Some(PyPI) && !(EndsWith(name, ".txt") || name == "Pipfile") {
        return Rejected(MixedTypes);
      }
      assert FileVerdict(ecosystem, name).None?;
      i := i + 1;
    }
    v := Accepted(ecosystem.value);
  }

  /** The two counts the saved report holds (lines 42-43). */
  datatype ScanReport = ScanReport(totalDependencies: nat, vulnerabilitiesFound: nat)

  /** How a request ends: the upload form, the form with an error message, an exception
      (a server error), or a saved report. */
  datatype ViewResult = UploadForm | UploadError(message: string) | ViewRaised | ReportSaved(report: ScanReport)

  /** The whole view: validation, then parsing and checking, then the report's counts.
      `len` of the None or of the error page that the check can return raises. */
  function UploadSpec(isPost: bool, files: seq<UploadedFile>, loads: JsonLoads, osv: OsvService): ViewResult
  {
    if !isPost then UploadForm
    else
      match Validate(Names(files))
      case Rejected(message) => UploadError(message)
      case Raised => ViewRaised
      case Accepted(e) =>
        var deps := ParsedDependencies(files, loads);
        match CheckSpec(deps, EcosystemName(e), osv)
        case Found(findings) => ReportSaved(ScanReport(|deps|, |findings|))
        case _ => ViewRaised
  }

  /** upload_dependency_view up to the report's counts. */
  method UploadDependencyView(isPost: bool, files: seq<UploadedFile>, loads: JsonLoads, osv: OsvService) returns (result: ViewResult)
    ensures result == UploadSpec(isPost, files, loads, osv)
  {
    if !isPost {
      return UploadForm;
    }
    var verdict := ValidateUpload(Names(files));
    match verdict {
      case Rejected(message) =>
        return UploadError(message);
      case Raised =>
        return ViewRaised;
      case Accepted(e) =>
        var dependencies := ParseDependencyFiles(files, loads);
        var vulns := CheckVulnerabilities(dependencies, EcosystemName(e), osv);
        if !vulns.Found? {
          return ViewRaised;
        }
        result := ReportSaved(ScanReport(|dependencies|, |vulns.findings|));
    }
  }

  // ---- properties of the validation ----

  lemma {:induction false} FirstVerdictNone(eco: Option<Ecosystem>, names: seq<string>)
    ensures FirstVerdict(eco, names).None? <==> forall i :: 0 <= i < |names| ==> FileVerdict(eco, names[i]).None?
    decreases |names|
  {
    if names != [] {
      FirstVerdictNone(eco, names[1..]);
      assert forall i :: 1 <= i < |names| ==> names[1..][i - 1] == names[i];
    }
  }

  /** The first failing file decides: when every file before `k` passes and file `k`
      does not, the view answers with file `k`'s verdict. */
  lemma {:induction false} FirstFailureDecides(eco: Option<Ecosystem>, names: seq<string>, k: nat)
    requires k < |names| && FileVerdict(eco, names[k]).Some?
    requires forall i :: 0 <= i < k ==> FileVerdict(eco, names[i]).None?
    ensures FirstVerdict(eco, names) == FileVerdict(eco, names[k])
    decreases k
  {
    if k > 0 {
      PassingTail(eco, names, k);
      FirstVerdictSkip(eco, names);
      FirstFailureDecides(eco, names[1..], k - 1);
    }
  }

  /** A passing first file leaves the verdict to the rest. */
  lemma FirstVerdictSkip(eco: Option<Ecosystem>, names: seq<string>)
    requires names != [] && FileVerdict(eco, names[0]).None?
    ensures FirstVerdict(eco, names) == FirstVerdict(eco, names[1..])
  {
  }

  /** Dropping a passing first file keeps the passing prefix and the failing file. */
  lemma PassingTail(eco: Option<Ecosystem>, names: seq<string>, k: nat)
    requires 0 < k < |names| && FileVerdict(eco, names[k]).Some?
    requires forall i :: 0 <= i < k ==> FileVerdict(eco, names[i]).None?
    ensures FileVerdict(eco, names[1..][k - 1]).Some?
    ensures forall i :: 0 <= i < k - 1 ==> FileVerdict(eco, names[1..][i]).None?
  {
    assert names[1..][k - 1] == names[k];
    forall i | 0 <= i < k - 1
      ensures FileVerdict(eco, names[1..][i]).None?
    {
      assert names[1..][i] == names[i + 1];
    }
  }

  /** A batch is accepted as `e` exactly when the first file names `e` and every file
      fits `e`. */
  lemma AcceptedIff(names: seq<string>, e: Ecosystem)
    ensures Validate(names) == Accepted(e) <==>
      names != [] && Classify(names[0]) == Some(e) && forall i :: 0 <= i < |names| ==> Fits(e, names[i])
  {
    if names != [] {
      var eco := Classify(names[0]);
      FirstVerdictNone(eco, names);
      if eco == Some(e) && forall i :: 0 <= i < |names| ==> Fits(e, names[i]) {
        forall i | 0 <= i < |names|
          ensures FileVerdict(eco, names[i]).None?
        {
          assert Fits(e, names[i]);
        }
      }
      if Validate(names) == Accepted(e) {
        assert FirstVerdict(eco, names).None?;
        forall i | 0 <= i < |names|
          ensures Fits(e, names[i])
        {
          assert FileVerdict(eco, names[i]).None?;
        }
      }
    }
  }

  /** The view raises exactly when the first file is supported but none of the three
      names that choose an ecosystem; an unsupported first file still gets its error. */
  lemma RaisedIff(names: seq<string>)
    ensures Validate(names) == Raised <==>
      names != [] && Classify(names[0]).None? && IsSupported(names[0])
  {
    if names != [] {
      var eco := Classify(names[0]);
      if eco.Some? {
        if FirstVerdict(eco, names).Some? {
          var k := FirstFailing(eco, names);
          FirstFailureDecides(eco, names, k);
        }
      }
    }
  }

  /** Where a batch is rejected or raises, the index of the file that decides it. */
  lemma {:induction false} FirstFailing(eco: Option<Ecosystem>, names: seq<string>) returns (k: nat)
    requires FirstVerdict(eco, names).Some?
    ensures k < |names| && FileVerdict(eco, names[k]).Some?
    ensures forall i :: 0 <= i < k ==> FileVerdict(eco, names[i]).None?
    decreases |names|
  {
    if FileVerdict(eco, names[0]).Some? {
      k := 0;
    } else {
      FirstVerdictSkip(eco, names);
      var j := FirstFailing(eco, names[1..]);
      PassingPrefix(eco, names, j);
      k := j + 1;
    }
  }

  /** A passing first file in front of a passing prefix of the rest, followed by a
      failing file. */
  lemma PassingPrefix(eco: Option<Ecosystem>, names: seq<string>, j: nat)
    requires names != [] && FileVerdict(eco, names[0]).None?
    requires j < |names| - 1 && FileVerdict(eco, names[1..][j]).Some?
    requires forall i :: 0 <= i < j ==> FileVerdict(eco, names[1..][i]).None?
    ensures FileVerdict(eco, names[j + 1]).Some?
    ensures forall i :: 0 <= i < j + 1 ==> FileVerdict(eco, names[i]).None?
  {
    assert names[1..][j] == names[j + 1];
    forall i | 0 < i < j + 1
      ensures FileVerdict(eco, names[i]).None?
    {
      assert names[i] == names[1..][i - 1];
    }
  }

  /** No upload gives "No file selected" before anything else is looked at. */
  lemma NoFileFirst()
    ensures Validate([]) == Rejected("No file selected")
  {
  }

  lemma PackageJsonIsNpm()
    ensures Classify("package.json") == Some(Npm)
  {
    assert "package.json"[0..] == "package.json";
  }

  lemma RequirementsIsNotJson()
    ensures !EndsWith("requirements.txt", ".json") && EndsWith("requirements.txt", ".txt")
  {
    assert "requirements.txt"[|"requirements.txt"| - 5] == 's';
    assert ".json"[0] == '.';
    assert "requirements.txt"[12..] == ".txt";
  }

  /** A package.json next to a requirements.txt is a mixed upload: nothing is parsed. */
  lemma MixedUpload()
    ensures Validate(["package.json", "requirements.txt"]) == Rejected(MixedTypes)
  {
    var names := ["package.json", "requirements.txt"];
    PackageJsonIsNpm();
    RequirementsIsNotJson();
    assert "package.json"[7..] == ".json";
    assert FileVerdict(Some(Npm), names[0]).None?;
    assert FileVerdict(Some(Npm), names[1]) == Some(Rejected(MixedTypes));
    FirstFailureDecides(Some(Npm), names, 1);
  }

  /** Only the exact name `Pipfile` is supported: a lower-case `pipfile` is rejected. */
  lemma LowercasePipfileRejected()
    ensures Validate(["pipfile"]) == Rejected(UnsupportedType)
  {
    assert "pipfile" != "Pipfile" by { assert "pipfile"[0] != "Pipfile"[0]; }
    assert !EndsWith("pipfile", ".json") by { assert "pipfile"[|"pipfile"| - 5] != '.'; }
    assert !EndsWith("pipfile", ".txt") by { assert "pipfile"[|"pipfile"| - 4] != '.'; }
  }

  /** A first file such as `deps.json` chooses no ecosystem, so the view raises. */
  lemma UnclassifiedJsonRaises()
    ensures Validate(["deps.json"]) == Raised
  {
    var name := "deps.json";
    assert !EndsWith(name, "package.json") by { assert |name| < |"package.json"|; }
    assert !EndsWith(name, "requirements.txt") by { assert |name| < |"requirements.txt"|; }
    assert name != "Pipfile" by { assert |name| != |"Pipfile"|; }
    assert name[4..] == ".json";
    RaisedIff([name]);
  }

  // ---- properties of the whole view ----

  /** A saved report counts the parsed dependencies and the findings of the check, and
      exists only for an accepted upload whose check returned a list. */
  lemma ReportCounts(isPost: bool, files: seq<UploadedFile>, loads: JsonLoads, osv: OsvService)
    requires UploadSpec(isPost, files, loads, osv).ReportSaved?
    ensures isPost && Validate(Names(files)).Accepted?
    ensures var e := Validate(Names(files)).ecosystem;
      var deps := ParsedDependencies(files, loads);
      var report := UploadSpec(isPost, files, loads, osv).report;
      (forall i :: 0 <= i < |files| ==> Fits(e, files[i].name))
      && CheckSpec(deps, EcosystemName(e), osv).Found?
      && report == ScanReport(|deps|, |CheckSpec(deps, EcosystemName(e), osv).findings|)
  {
    AcceptedIff(Names(files), Validate(Names(files)).ecosystem);
  }

  /** An accepted upload in which some file fails to parse saves an empty report: no
      dependencies and no vulnerabilities. */
  lemma ParseFailureEmptyReport(files: seq<UploadedFile>, loads: JsonLoads, osv: OsvService, k: nat)
    requires Validate(Names(files)).Accepted?
    requires k < |files| && FileDependencies(files[k], loads).None?
    ensures UploadSpec(true, files, loads, osv) == ReportSaved(ScanReport(0, 0))
  {
    FailureDiscardsAll(files, loads, k);
  }

  /** A reply that is not 200 makes the check return None, on which `len` raises. */
  lemma FailedQueryRaises(files: seq<UploadedFile>, loads: JsonLoads, osv: OsvService)
    requires Validate(Names(files)).Accepted?
    requires var deps := ParsedDependencies(files, loads);
      deps != [] && osv(Query(deps[0], EcosystemName(Validate(Names(files)).ecosystem))).Response?
      && osv(Query(deps[0], EcosystemName(Validate(Names(files)).ecosystem))).status != 200
    ensures UploadSpec(true, files, loads, osv) == ViewRaised
  {
    var deps := ParsedDependencies(files, loads);
    var eco := EcosystemName(Validate(Names(files)).ecosystem);
    assert deps[..0] == [];
    AbortOnFailure(deps, eco, osv, 0);
  }
}
