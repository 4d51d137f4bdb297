/** The decision table for scanned traffic. */
module Policy {
  import opened Wrappers
  import opened Threat

  datatype Decision = ALLOW | BLOCK | WARN

  datatype FileScan = FileScan(verdict: ThreatVerdict, riskScore: int)

  datatype PolicyResult = PolicyResult(decision: Decision, riskScore: int, threatVerdict: ThreatVerdict)

  function DecideFromFileScan(fileScan: Option<FileScan>): Option<PolicyResult> {
    match fileScan
    case Some(FileScan(MALICIOUS, riskScore)) => Some(PolicyResult(BLOCK, riskScore, MALICIOUS))
    case Some(FileScan(SUSPICIOUS, riskScore)) => Some(PolicyResult(WARN, riskScore, SUSPICIOUS))
    case _ => None
  }

  function DecideFromThreatScan(scan: ThreatScanResult, failClosed: bool): PolicyResult {
    var decision :=
      match scan.verdict
      case MALICIOUS => BLOCK
      case SUSPICIOUS => WARN
      case UNVERIFIED => if scan.failSafe && failClosed then BLOCK else ALLOW
      case SAFE => ALLOW;
    PolicyResult(decision, scan.riskScore, scan.verdict)
  }

  function Decide(scan: ThreatScanResult, fileScan: Option<FileScan>, failClosed: bool): PolicyResult {
    var filePolicy := DecideFromFileScan(fileScan);
    if filePolicy.Some? then filePolicy.value else DecideFromThreatScan(scan, failClosed)
  }

  predicate IsFinding(verdict: ThreatVerdict) {
    verdict == MALICIOUS || verdict == SUSPICIOUS
  }

  // ----- the decision read off the two verdicts -----

  predicate FileIs(fileScan: Option<FileScan>, verdict: ThreatVerdict) {
    fileScan.Some? && fileScan.value.verdict == verdict
  }

  /** A suspicious file, or a suspicious url whose file, if any, is not a finding. */
  predicate Suspicion(scan: ThreatScanResult, fileScan: Option<FileScan>) {
    FileIs(fileScan, SUSPICIOUS) || (scan.verdict == SUSPICIOUS && !FileIs(fileScan, MALICIOUS))
  }

  /** A malicious file; or no suspicious file, and a malicious url or one whose failed scan is not tolerated. */
  predicate Danger(scan: ThreatScanResult, fileScan: Option<FileScan>, failClosed: bool) {
    || FileIs(fileScan, MALICIOUS)
    || (!FileIs(fileScan, SUSPICIOUS)
        && (scan.verdict == MALICIOUS || (scan.verdict == UNVERIFIED && scan.failSafe && failClosed)))
  }

  /** Each decision, exactly when it is taken, by the verdicts of the two scans. */
  lemma DecisionsByVerdicts(scan: ThreatScanResult, fileScan: Option<FileScan>, failClosed: bool)
    ensures Decide(scan, fileScan, failClosed).decision == WARN <==> Suspicion(scan, fileScan)
    ensures Decide(scan, fileScan, failClosed).decision == BLOCK <==> Danger(scan, fileScan, failClosed)
    ensures Decide(scan, fileScan, failClosed).decision == ALLOW
       <==> !Suspicion(scan, fileScan) && !Danger(scan, fileScan, failClosed)
  {
  }

  /** The recorded score and verdict are those of the file exactly if it is a finding, and of the url otherwise. */
  lemma TheFindingIsRecorded(scan: ThreatScanResult, fileScan: Option<FileScan>, failClosed: bool)
    ensures var p := Decide(scan, fileScan, failClosed);
            if fileScan.Some? && fileScan.value.verdict in {MALICIOUS, SUSPICIOUS}
            then p.riskScore == fileScan.value.riskScore && p.threatVerdict == fileScan.value.verdict
            else p.riskScore == scan.riskScore && p.threatVerdict == scan.verdict
  {
  }

  /** Traffic is let through silently exactly if neither scan found anything and a missing scan is tolerated. */
  lemma AllowedMeansNothingFound(scan: ThreatScanResult, fileScan: Option<FileScan>, failClosed: bool)
    ensures Decide(scan, fileScan, failClosed).decision == ALLOW <==>
      && !IsFinding(scan.verdict)
      && !(fileScan.Some? && IsFinding(fileScan.value.verdict))
      && !(scan.verdict == UNVERIFIED && scan.failSafe && failClosed)
  {
  }

  /**
   * A malicious url is blocked exactly if the file scan does not come first with a mere suspicion: the file
   * scan is asked first, so a suspicious file softens the block to a warning.
   */
  lemma MaliciousUrlIsBlocked(scan: ThreatScanResult, fileScan: Option<FileScan>, failClosed: bool)
    requires scan.verdict == MALICIOUS
    ensures Decide(scan, fileScan, failClosed).decision == BLOCK <==> !(fileScan.Some? && fileScan.value.verdict == SUSPICIOUS)
    ensures Decide(scan, fileScan, failClosed).decision != ALLOW
  {
  }

  /** The softening does happen. */
  lemma SuspiciousFileSoftensTheBlock()
    ensures Decide(ThreatScanResult(MALICIOUS, 90, "u", false), Some(FileScan(SUSPICIOUS, 60)), true).decision == WARN
  {
  }
}
