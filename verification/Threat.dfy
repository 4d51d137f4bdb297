/** Verdicts and scan results exchanged between the scanner, its cache and the policy. */
module Threat {

  datatype ThreatVerdict = SAFE | SUSPICIOUS | MALICIOUS | UNVERIFIED

  /** `failSafe` marks the stand-in result that is used when the scanner could not answer. */
  datatype ThreatScanResult = ThreatScanResult(verdict: ThreatVerdict, riskScore: int, scannedUrl: string, failSafe: bool)

  function RiskScore(verdict: ThreatVerdict): int {
    match verdict
    case MALICIOUS => 90
    case SUSPICIOUS => 60
    case SAFE => 10
    case UNVERIFIED => 40
  }
}
