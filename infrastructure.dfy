/** infrastructure_monitor/utils.py: the simulated port scan of a target and the
    security grade computed from it. The random choices of the scan are parameters. */
module Infrastructure {
  import opened Seqs

  datatype PortEntry = PortEntry(port: nat, service: string, risk: bool)

  datatype ScanData = ScanData(ports: seq<PortEntry>, sslExpired: bool)

  /** The canned scans of three known targets (lines 4-12). */
  const MockPorts: map<string, seq<PortEntry>> := map[
    "8.8.8.8" := [PortEntry(53, "DNS", false), PortEntry(443, "HTTPS", false)],
    "bad-site.com" := [PortEntry(80, "HTTP", false), PortEntry(21, "FTP", true), PortEntry(23, "Telnet", true)],
    "example.com" := [PortEntry(80, "HTTP", false), PortEntry(443, "HTTPS", false)]
  ]

  /** The six ports a scan of an unknown target draws from (lines 31-34). */
  const CommonPorts: seq<PortEntry> := [
    PortEntry(80, "HTTP", false), PortEntry(443, "HTTPS", false), PortEntry(22, "SSH", false),
    PortEntry(21, "FTP", true), PortEntry(3306, "MySQL", true), PortEntry(23, "Telnet", true)
  ]

  /** The random draws of a scan of an unknown target: `random.randint(1, 4)` gives
      between one and four picks, and each `random.choice` an index into CommonPorts. */
  predicate ValidPicks(picks: seq<nat>) {
    1 <= |picks| <= 4 && forall i :: 0 <= i < |picks| ==> picks[i] < |CommonPorts|
  }

  /** `service in [p['service'] for p in ports]`. */
  predicate HasService(ports: seq<PortEntry>, service: string) {
    exists i :: 0 <= i < |ports| && ports[i].service == service
  }

  /** The ports the picks select, in pick order. */
  function PickedPorts(picks: seq<nat>): (ports: seq<PortEntry>)
    requires forall i :: 0 <= i < |picks| ==> picks[i] < |CommonPorts|
    ensures |ports| == |picks| && forall i :: 0 <= i < |picks| ==> ports[i] == CommonPorts[picks[i]]
  {
    if picks == [] then [] else PickedPorts(picks[..|picks| - 1]) + [CommonPorts[picks[|picks| - 1]]]
  }

  /** The scan `scan_target(target)` returns. For an unknown target `coin` is the
      `random.choice([True, False])` drawn when HTTPS is among the picked ports. */
  function ScanOf(target: string, picks: seq<nat>, coin: bool): ScanData
    requires target !in MockPorts ==> ValidPicks(picks)
  {
    if target in MockPorts then ScanData(MockPorts[target], target == "bad-site.com")
    else
      var ports := PickedPorts(picks);
      ScanData(ports, if HasService(ports, "HTTPS") then coin else false)
  }

  /** scan_target: the known targets' canned ports, or the picked ports appended one by
      one in a counted loop. */
  method ScanTarget(target: string, picks: seq<nat>, coin: bool) returns (scan: ScanData)
    requires target !in MockPorts ==> ValidPicks(picks)
    ensures scan == ScanOf(target, picks, coin)
  {
    if target in MockPorts {
      var ports := MockPorts[target];
      var sslExpired := false;
      if target == "bad-site.com" {
        sslExpired := true;
      }
      return ScanData(ports, sslExpired);
    }
    var ports := [];
    var numPorts := |picks|;
    for k := 0 to numPorts
      invariant ports == PickedPorts(picks[..k])
    {
      assert picks[..k + 1][..k] == picks[..k];
      var p := CommonPorts[picks[k]];
      ports := ports + [PortEntry(p.port, p.service, p.risk)];
    }
    assert picks[..numPorts] == picks;
    var sslExpired := if HasService(ports, "HTTPS") then coin else false;
    scan := ScanData(ports, sslExpired);
  }

  /** `sum(1 for p in ports if p['risk'])`. */
  function RiskCount(ports: seq<PortEntry>): (n: nat)
    ensures n <= |ports|
  {
    if ports == [] then 0 else RiskCount(ports[..|ports| - 1]) + (if ports[|ports| - 1].risk then 1 else 0)
  }

  /** The score before the clamp at line 61. */
  function RawScore(scan: ScanData): int
  {
    100 - RiskCount(scan.ports) * 20 - (if scan.sslExpired then 30 else 0)
  }

  /** Lines 64-68: the grade of a score. */
  function GradeOf(score: int): char
  {
    if score >= 90 then 'A'
    else if score >= 80 then 'B'
    else if score >= 70 then 'C'
    else if score >= 60 then 'D'
    else 'F'
  }

  /** calculate_grade: the clamped score and its grade. */
  function CalculateGrade(scan: ScanData): (r: (int, char))
    ensures 0 <= r.0 <= 100
    ensures r.1 in {'A', 'B', 'C', 'D', 'F'}
    ensures r.0 == if RawScore(scan) < 0 then 0 else RawScore(scan)
  {
    var score := RawScore(scan);
    var clamped := if score < 0 then 0 else score;
    (clamped, GradeOf(clamped))
  }

  /** The position of a grade from worst (F) to best (A). */
  function Rank(grade: char): int
  {
    match grade
    case 'A' => 4
    case 'B' => 3
    case 'C' => 2
    case 'D' => 1
    case _ => 0
  }

  // ---- properties of the grading ----

  /** A higher score never gets a worse grade. */
  lemma GradeMonotone(s1: int, s2: int)
    requires s1 <= s2
    ensures Rank(GradeOf(s1)) <= Rank(GradeOf(s2))
  {
  }

  /** Each band of ten points from 60 upwards has its letter; 'E' is skipped. */
  lemma GradeBands(score: int)
    ensures GradeOf(score) != 'E'
    ensures GradeOf(score) == 'F' <==> score < 60
    ensures GradeOf(score) == 'A' <==> score >= 90
  {
  }

  lemma {:induction false} RiskCountAppend(a: seq<PortEntry>, b: seq<PortEntry>)
    ensures RiskCount(a + b) == RiskCount(a) + RiskCount(b)
    decreases |b|
  {
    if b == [] {
      assert a + b == a;
    } else {
      assert (a + b)[..|a + b| - 1] == a + b[..|b| - 1];
      RiskCountAppend(a, b[..|b| - 1]);
    }
  }

  lemma RiskCountSingle(p: PortEntry)
    ensures RiskCount([p]) == if p.risk then 1 else 0
  {
    var single := [p];
    assert single[..0] == [];
  }

  /** A port between two lists counts once, if it is risky. */
  lemma RiskCountBetween(a: seq<PortEntry>, p: PortEntry, b: seq<PortEntry>)
    ensures RiskCount(a + [p] + b) == RiskCount(a) + RiskCount(b) + if p.risk then 1 else 0
  {
    RiskCountSingle(p);
    RiskCountAppend(a + [p], b);
    RiskCountAppend(a, [p]);
  }

  /** Inserting a risky port anywhere adds exactly one to the count. */
  lemma RiskyInsertion(ports: seq<PortEntry>, k: nat, p: PortEntry)
    requires k <= |ports| && p.risk
    ensures RiskCount(ports[..k] + [p] + ports[k..]) == RiskCount(ports) + 1
  {
    SplitAt(ports, k);
    RiskCountBetween(ports[..k], p, ports[k..]);
    RiskCountAppend(ports[..k], ports[k..]);
  }

  /** An extra risky port never raises the score or improves the grade. */
  lemma RiskyPortNeverHelps(scan: ScanData, k: nat, p: PortEntry)
    requires k <= |scan.ports| && p.risk
    ensures var worse := CalculateGrade(ScanData(scan.ports[..k] + [p] + scan.ports[k..], scan.sslExpired));
      worse.0 <= CalculateGrade(scan).0 && Rank(worse.1) <= Rank(CalculateGrade(scan).1)
  {
    RiskyInsertion(scan.ports, k, p);
    var worse := ScanData(scan.ports[..k] + [p] + scan.ports[k..], scan.sslExpired);
    GradeMonotone(CalculateGrade(worse).0, CalculateGrade(scan).0);
  }

  /** An expired certificate never raises the score or improves the grade. */
  lemma ExpiredSslNeverHelps(scan: ScanData)
    ensures var worse := CalculateGrade(ScanData(scan.ports, true));
      worse.0 <= CalculateGrade(scan).0 && Rank(worse.1) <= Rank(CalculateGrade(scan).1)
  {
    GradeMonotone(CalculateGrade(ScanData(scan.ports, true)).0, CalculateGrade(scan).0);
  }

  // ---- properties of the scan ----

  /** A known target always gets its canned ports, and only bad-site.com an expired
      certificate, whatever the random draws. */
  lemma KnownTargetsDeterministic(target: string, picks: seq<nat>, coin: bool, picks2: seq<nat>, coin2: bool)
    requires target in MockPorts
    ensures ScanOf(target, picks, coin) == ScanOf(target, picks2, coin2)
    ensures ScanOf(target, picks, coin).ports == MockPorts[target]
    ensures ScanOf(target, picks, coin).sslExpired <==> target == "bad-site.com"
  {
  }

  /** An unknown target gets one to four of the common ports, and an expired certificate
      only when HTTPS is among them. */
  lemma UnknownTargetScan(target: string, picks: seq<nat>, coin: bool)
    requires target !in MockPorts && ValidPicks(picks)
    ensures var scan := ScanOf(target, picks, coin);
      1 <= |scan.ports| <= 4
      && (forall i :: 0 <= i < |scan.ports| ==> scan.ports[i] in CommonPorts)
      && (scan.sslExpired ==> HasService(scan.ports, "HTTPS"))
  {
  }

  /** The HTTPS port is not risky, so a scan with an expired certificate has at most
      three risky ports. */
  lemma {:induction false} RiskBelowLength(ports: seq<PortEntry>)
    requires HasService(ports, "HTTPS")
    requires forall i :: 0 <= i < |ports| ==> ports[i].service == "HTTPS" ==> !ports[i].risk
    ensures RiskCount(ports) < |ports|
    decreases |ports|
  {
    var init := ports[..|ports| - 1];
    if ports[|ports| - 1].service == "HTTPS" {
    } else {
      var i :| 0 <= i < |ports| && ports[i].service == "HTTPS";
      assert init[i] == ports[i];
      forall j | 0 <= j < |init|
        ensures init[j].service == "HTTPS" ==> !init[j].risk
      {
        assert init[j] == ports[j];
      }
      RiskBelowLength(init);
    }
  }

  lemma BadSitePorts()
    ensures "bad-site.com" in MockPorts && RiskCount(MockPorts["bad-site.com"]) == 2
  {
    var ports := MockPorts["bad-site.com"];
    assert ports[..2][..1][..0] == [];
  }

  lemma CommonHttpsSafe()
    ensures forall i :: 0 <= i < |CommonPorts| ==> CommonPorts[i].service == "HTTPS" ==> !CommonPorts[i].risk
  {
    assert "HTTPS" != "FTP" && "HTTPS" != "MySQL" && "HTTPS" != "Telnet";
  }

  /** No scan that scan_target produces needs the clamp: the raw score is at least 10
      (three risky ports and an expired certificate on an unknown target). */
  lemma ClampNeverNeeded(target: string, picks: seq<nat>, coin: bool)
    requires target !in MockPorts ==> ValidPicks(picks)
    ensures RawScore(ScanOf(target, picks, coin)) >= 10
  {
    var scan := ScanOf(target, picks, coin);
    if target in MockPorts {
      BadSitePorts();
      assert |"bad-site.com"| != |"8.8.8.8"| && |"bad-site.com"| != |"example.com"|;
      assert target == "8.8.8.8" || target == "bad-site.com" || target == "example.com";
      if target != "bad-site.com" {
        assert RiskCount(scan.ports) <= 2;
      }
    } else if scan.sslExpired {
      CommonHttpsSafe();
      RiskBelowLength(scan.ports);
    }
  }

  /** bad-site.com scores 30 with grade F: two risky ports and an expired certificate. */
  lemma BadSiteGrade(picks: seq<nat>, coin: bool)
    ensures CalculateGrade(ScanOf("bad-site.com", picks, coin)) == (30, 'F')
  {
    BadSitePorts();
  }

  /** 8.8.8.8 and example.com have no risky port and a valid certificate: 100, grade A. */
  lemma CleanTargetsGrade(picks: seq<nat>, coin: bool)
    ensures CalculateGrade(ScanOf("8.8.8.8", picks, coin)) == (100, 'A')
    ensures CalculateGrade(ScanOf("example.com", picks, coin)) == (100, 'A')
  {
    assert "8.8.8.8" != "bad-site.com" && "example.com" != "bad-site.com";
    var dns := MockPorts["8.8.8.8"];
    assert dns[..1][..0] == [];
    var web := MockPorts["example.com"];
    assert web[..1][..0] == [];
  }
}
