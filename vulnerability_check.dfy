/** `check_vulnerabilities` of dependency_analysis/utils.py: each dependency is sent to
    the OSV query service and every advisory in the reply becomes a finding. The service
    is a function from the request payload to its reply. */
module VulnerabilityCheck {
  import opened Wrappers
  import opened Seqs
  import opened DependencyParsing

  /** One element of an advisory's `severity` list. */
  datatype ScoreEntry = ScoreObject(score: Option<string>) | NonObjectEntry

  /** The `severity` member of an advisory: missing, the string "N/A", a list, or any
      other JSON value (a string, number, object or null), which cannot be indexed as
      a list of objects. */
  datatype SeverityField = Absent | NotAvailable | Scores(entries: seq<ScoreEntry>) | OtherShape

  /** One element of the reply's `vulns` list; a non-object element has no `get`. */
  datatype VulnRecord =
    | VulnRecord(id: Option<string>, details: Option<string>, severity: SeverityField)
    | NonObjectRecord

  /** The decoded reply body: an object with a `vulns` list, an object without one, or
      a body that is not JSON or not an object with a list there, which raises. */
  datatype ReplyBody = Vulns(records: seq<VulnRecord>) | NoVulns | Unreadable

  /** What `requests.post` gives back for one payload, or an exception it raises. */
  datatype Reply = Response(status: int, body: ReplyBody) | PostRaised

  /** The JSON payload of one query. */
  datatype Payload = Payload(name: string, ecosystem: string, version: string)

  type OsvService = Payload -> Reply

  datatype Finding = Finding(
    libraryName: string, version: string, cveId: string,
    description: string, severity: string, remediation: string)

  /** What the function returns: the findings list, None after a reply whose status is
      not 200, or the rendered error page after an exception. */
  datatype CheckResult = Found(findings: seq<Finding>) | NoResult | ErrorPage

  const Remediation := "Please Update Dependency to Latest Version"
  const NotAvailableText := "N/A"
  const NoDescription := "No description provided"

  /** The severity of a finding: "N/A" when the advisory has none, else the `score` of
      the first entry of its list; None where the indexing raises. */
  function SeverityOf(field: SeverityField): Option<string>
  {
    match field
    case Absent => Some(NotAvailableText)
    case NotAvailable => Some(NotAvailableText)
    case Scores(entries) =>
      if entries == [] then None
      else
        (match entries[0]
         case ScoreObject(score) => Some(score.GetOr(NotAvailableText))
         case NonObjectEntry => None)
    case OtherShape => None
  }

  /** The finding one advisory gives for `dep`, None where it raises. */
  function RecordFinding(dep: Dependency, rec: VulnRecord): Option<Finding>
  {
    match rec
    case NonObjectRecord => None
    case VulnRecord(id, details, field) =>
      match SeverityOf(field)
      case None => None
      case Some(severity) =>
        Some(Finding(dep.name, dep.version, id.GetOr(NotAvailableText),
                     details.GetOr(NoDescription), severity, Remediation))
  }

  /** The findings of a list of advisories in order, None if any of them raises. */
  function RecordsFindings(dep: Dependency, records: seq<VulnRecord>): Option<seq<Finding>>
  {
    if records == [] then Some([])
    else
      match (RecordsFindings(dep, records[..|records| - 1]), RecordFinding(dep, records[|records| - 1]))
      case (Some(fs), Some(f)) => Some(fs + [f])
      case _ => None
  }

  /** Lines 129-160 for one dependency: its findings, or the early return. */
  function DependencyOutcome(dep: Dependency, reply: Reply): CheckResult
  {
    match reply
    case PostRaised => ErrorPage
    case Response(status, body) =>
      if status != 200 then NoResult
      else
        match body
        case Unreadable => ErrorPage
        case NoVulns => Found([])
        case Vulns(records) =>
          match RecordsFindings(dep, records)
          case None => ErrorPage
          case Some(fs) => Found(fs)
  }

  function Query(dep: Dependency, ecosystem: string): Payload
  {
    Payload(dep.name, ecosystem, dep.version)
  }

  /** The value `check_vulnerabilities(deps, ecosystem, request)` returns: the findings
      of every dependency in order, or the first early return. */
  function CheckSpec(deps: seq<Dependency>, ecosystem: string, osv: OsvService): CheckResult
  {
    if deps == [] then Found([])
    else
      var last := deps[|deps| - 1];
      Then(CheckSpec(deps[..|deps| - 1], ecosystem, osv), DependencyOutcome(last, osv(Query(last, ecosystem))))
  }

  /** One run of checks followed by another: the findings of both, or the first early
      return. */
  function Then(first: CheckResult, second: CheckResult): CheckResult
  {
    match first
    case Found(fs) =>
      (match second
       case Found(more) => Found(fs + more)
       case other => other)
    case other => other
  }

  lemma ThenAssociative(x: CheckResult, y: CheckResult, z: CheckResult)
    ensures Then(Then(x, y), z) == Then(x, Then(y, z))
  {
    if x.Found? && y.Found? && z.Found? {
      assert (x.findings + y.findings) + z.findings == x.findings + (y.findings + z.findings);
    }
  }

  // ---- the loops ----

  lemma RecordsFindingsSnoc(dep: Dependency, records: seq<VulnRecord>, rec: VulnRecord)
    ensures RecordsFindings(dep, records + [rec]) ==
      match (RecordsFindings(dep, records), RecordFinding(dep, rec))
      case (Some(fs), Some(f)) => Some(fs + [f])
      case _ => None
  {
    assert (records + [rec])[..|records|] == records;
  }

  /** One advisory that raises spoils the whole reply. */
  lemma {:induction false} RecordFailure(dep: Dependency, records: seq<VulnRecord>, k: nat)
    requires k < |records| && RecordFinding(dep, records[k]).None?
    ensures RecordsFindings(dep, records).None?
    decreases |records|
  {
    if k < |records| - 1 {
      assert records[..|records| - 1][k] == records[k];
      RecordFailure(dep, records[..|records| - 1], k);
    }
  }

  /** Lines 134-153: the advisories of one reply appended to `found`, None where one of
      them raises. */
  method AppendFindings(found: seq<Finding>, dep: Dependency, records: seq<VulnRecord>) returns (r: Option<seq<Finding>>)
    ensures r.Some? <==> RecordsFindings(dep, records).Some?
    ensures r.Some? ==> r.value == found + RecordsFindings(dep, records).value
  {
    var acc := found;
    var j := 0;
    while j < |records|
      invariant 0 <= j <= |records|
      invariant RecordsFindings(dep, records[..j]).Some?
      invariant acc == found + RecordsFindings(dep, records[..j]).value
    {
      var item := records[j];
      assert records[..j + 1] == records[..j] + [item];
      RecordsFindingsSnoc(dep, records[..j], item);
      if item.NonObjectRecord? {
        RecordFailure(dep, records, j);
        return None;
      }
      var severity := SeverityOf(item.severity);
      if severity.None? {
        RecordFailure(dep, records, j);
        return None;
      }
      acc := acc + [Finding(dep.name, dep.version, item.id.GetOr(NotAvailableText),
                            item.details.GetOr(NoDescription), severity.value, Remediation)];
      j := j + 1;
    }
    assert records[..j] == records;
    r := Some(acc);
  }

  /** check_vulnerabilities: one query per dependency, in order, stopping at the first
      reply that is not 200 or raises. */
  method CheckVulnerabilities(deps: seq<Dependency>, ecosystem: string, osv: OsvService) returns (r: CheckResult)
    ensures r == CheckSpec(deps, ecosystem, osv)
  {
    var foundVulns := [];
    var i := 0;
    while i < |deps|
      invariant 0 <= i <= |deps|
      invariant CheckSpec(deps[..i], ecosystem, osv) == Found(foundVulns)
    {
      var dep := deps[i];
      assert deps[..i + 1][..i] == deps[..i];
      var response := osv(Query(dep, ecosystem));
      if response.PostRaised? {
        StopsAtFirstFailure(deps, ecosystem, osv, i + 1);
        return ErrorPage;
      }
      if response.status != 200 {
        StopsAtFirstFailure(deps, ecosystem, osv, i + 1);
        return NoResult;
      }
      match response.body {
        case Unreadable =>
          StopsAtFirstFailure(deps, ecosystem, osv, i + 1);
          return ErrorPage;
        case NoVulns =>
          assert foundVulns + [] == foundVulns;
        case Vulns(records) =>
          var next := AppendFindings(foundVulns, dep, records);
          if next.None? {
            StopsAtFirstFailure(deps, ecosystem, osv, i + 1);
            return ErrorPage;
          }
          foundVulns := next.value;
      }
      i := i + 1;
    }
    assert deps[..i] == deps;
    r := Found(foundVulns);
  }

  // ---- properties ----

  /** What one advisory gives: a finding for the dependency with the constant
      remediation, the advisory's id and details or their defaults, and "N/A" for a
      severity that is missing or "N/A". */
  lemma RecordFindingShape(dep: Dependency, rec: VulnRecord)
    requires RecordFinding(dep, rec).Some?
    ensures rec.VulnRecord?
    ensures var f := RecordFinding(dep, rec).value;
      f.libraryName == dep.name && f.version == dep.version && f.remediation == Remediation
      && f.cveId == rec.id.GetOr("N/A") && f.description == rec.details.GetOr("No description provided")
      && (rec.severity.Absent? || rec.severity.NotAvailable? ==> f.severity == "N/A")
      && (rec.severity.Scores? ==>
            (rec.severity.entries != [] && rec.severity.entries[0].ScoreObject?
             && f.severity == rec.severity.entries[0].score.GetOr("N/A")))
  {
  }

  /** Severity normalisation raises exactly on an empty list, a list whose first entry
      is not an object, and a value of any other shape. */
  lemma SeverityRaises(field: SeverityField)
    ensures SeverityOf(field).None? <==>
      field.OtherShape? || (field.Scores? && (field.entries == [] || field.entries[0].NonObjectEntry?))
  {
  }

  /** A reply yields one finding per advisory, in reply order, or raises. */
  lemma {:induction false} OneFindingPerRecord(dep: Dependency, records: seq<VulnRecord>)
    ensures RecordsFindings(dep, records).Some? <==> forall i :: 0 <= i < |records| ==> RecordFinding(dep, records[i]).Some?
    ensures RecordsFindings(dep, records).Some? ==>
      var fs := RecordsFindings(dep, records).value;
      |fs| == |records| && forall i :: 0 <= i < |records| ==> RecordFinding(dep, records[i]) == Some(fs[i])
    decreases |records|
  {
    if records != [] {
      var init := records[..|records| - 1];
      OneFindingPerRecord(dep, init);
      if forall i :: 0 <= i < |records| ==> RecordFinding(dep, records[i]).Some? {
        assert forall i :: 0 <= i < |init| ==> init[i] == records[i];
      } else {
        var k :| 0 <= k < |records| && RecordFinding(dep, records[k]).None?;
        RecordFailure(dep, records, k);
      }
    }
  }

  /** The findings of one dependency, or none when its outcome is an early return. */
  function FindingsOf(ecosystem: string, osv: OsvService): Dependency -> seq<Finding>
  {
    dep => var o := DependencyOutcome(dep, osv(Query(dep, ecosystem))); if o.Found? then o.findings else []
  }

  /** Findings come in dependency order, each dependency's findings in reply order, so
      a successful check is the concatenation of the per-dependency findings. */
  lemma {:induction false} FoundIsConcatenation(deps: seq<Dependency>, ecosystem: string, osv: OsvService)
    requires CheckSpec(deps, ecosystem, osv).Found?
    ensures CheckSpec(deps, ecosystem, osv).findings == FlatMap(deps, FindingsOf(ecosystem, osv))
    ensures forall i :: 0 <= i < |deps| ==> DependencyOutcome(deps[i], osv(Query(deps[i], ecosystem))).Found?
    decreases |deps|
  {
    if deps != [] {
      var init := deps[..|deps| - 1];
      FoundIsConcatenation(init, ecosystem, osv);
      assert forall i :: 0 <= i < |init| ==> init[i] == deps[i];
    }
  }

  /** Every finding names a dependency that was checked and carries the constant
      remediation text. */
  lemma FindingsNameDependencies(deps: seq<Dependency>, ecosystem: string, osv: OsvService, f: Finding)
    requires CheckSpec(deps, ecosystem, osv).Found?
    requires f in CheckSpec(deps, ecosystem, osv).findings
    ensures Dependency(f.libraryName, f.version) in deps
    ensures f.remediation == Remediation
  {
    FoundIsConcatenation(deps, ecosystem, osv);
    FlatMapMember(deps, FindingsOf(ecosystem, osv), f);
    var k :| 0 <= k < |deps| && f in FindingsOf(ecosystem, osv)(deps[k]);
    var dep := deps[k];
    var reply := osv(Query(dep, ecosystem));
    var records := reply.body.records;
    OneFindingPerRecord(dep, records);
    var fs := RecordsFindings(dep, records).value;
    var i :| 0 <= i < |fs| && fs[i] == f;
    RecordFindingShape(dep, records[i]);
  }

  /** Dependencies checked in two runs: `a + b` gives the findings of `a` then those of
      `b`, and once `a` has returned early, `b`'s replies no longer matter. */
  lemma {:induction false} CheckAppend(a: seq<Dependency>, b: seq<Dependency>, ecosystem: string, osv: OsvService)
    ensures CheckSpec(a + b, ecosystem, osv) == Then(CheckSpec(a, ecosystem, osv), CheckSpec(b, ecosystem, osv))
    decreases |b|
  {
    if b == [] {
      assert a + b == a;
      if CheckSpec(a, ecosystem, osv).Found? {
        assert CheckSpec(a, ecosystem, osv).findings + [] == CheckSpec(a, ecosystem, osv).findings;
      }
    } else {
      var init := b[..|b| - 1];
      var last := b[|b| - 1];
      assert (a + b)[..|a + b| - 1] == a + init;
      assert (a + b)[|a + b| - 1] == last;
      CheckAppend(a, init, ecosystem, osv);
      ThenAssociative(CheckSpec(a, ecosystem, osv), CheckSpec(init, ecosystem, osv), DependencyOutcome(last, osv(Query(last, ecosystem))));
    }
  }

  /** Once a prefix of the dependencies has returned early, the rest are never queried. */
  lemma StopsAtFirstFailure(deps: seq<Dependency>, ecosystem: string, osv: OsvService, k: nat)
    requires k <= |deps| && !CheckSpec(deps[..k], ecosystem, osv).Found?
    ensures CheckSpec(deps, ecosystem, osv) == CheckSpec(deps[..k], ecosystem, osv)
  {
    assert deps == deps[..k] + deps[k..];
    CheckAppend(deps[..k], deps[k..], ecosystem, osv);
  }

  /** A reply that is not 200 ends the check with None, whatever the later replies are,
      and so do no findings survive. */
  lemma AbortOnFailure(deps: seq<Dependency>, ecosystem: string, osv: OsvService, k: nat)
    requires k < |deps| && CheckSpec(deps[..k], ecosystem, osv).Found?
    requires osv(Query(deps[k], ecosystem)).Response? && osv(Query(deps[k], ecosystem)).status != 200
    ensures CheckSpec(deps, ecosystem, osv) == NoResult
  {
    assert deps[..k + 1][..k] == deps[..k];
    StopsAtFirstFailure(deps, ecosystem, osv, k + 1);
  }

  /** An empty severity list raises, so the check renders the error page. */
  lemma EmptySeverityRaises(dep: Dependency, id: Option<string>, details: Option<string>, ecosystem: string, osv: OsvService)
    requires osv(Query(dep, ecosystem)) == Response(200, Vulns([VulnRecord(id, details, Scores([]))]))
    ensures CheckSpec([dep], ecosystem, osv) == ErrorPage
  {
    var records := [VulnRecord(id, details, Scores([]))];
    assert records[..0] == [];
    assert RecordsFindings(dep, records).None?;
    assert [dep][..0] == [];
  }

  /** No dependencies, no queries: the check returns the empty list. */
  lemma NothingToCheck(ecosystem: string, osv: OsvService)
    ensures CheckSpec([], ecosystem, osv) == Found([])
  {
  }
}
