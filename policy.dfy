/** The trust policy: which validated results the lookups accept (ubdns_check_result). */
module TrustPolicy {
  import opened Types

  /** ubdns_check_result: no data is refused; an unsigned answer is refused when the
      policy requires security; a bogus answer is accepted only when the policy accepts
      bogus answers; anything else is accepted. */
  function CheckResult(cfg: Config, res: UbResult): (accepted: bool)
    ensures !res.havedata ==> !accepted
    ensures accepted <==>
      res.havedata && (res.secure || !cfg.requireSecure) && (res.bogus ==> cfg.acceptBogus)
  {
    if !res.havedata then false
    else if !res.secure && cfg.requireSecure then false
    else if res.bogus then cfg.acceptBogus
    else true
  }

  /** The security states of section 4.3 of RFC 4035 that a result's flags report
      (an indeterminate answer reaches the layer as an insecure one). */
  datatype Security = Secure | Insecure | Bogus

  function SecurityOf(res: UbResult): Security {
    if res.bogus then Bogus else if res.secure then Secure else Insecure
  }

  /** The intended policy, state by state: secure answers are always usable, insecure
      ones unless security is required, bogus ones only when bogus answers are accepted. */
  function Admits(cfg: Config, s: Security): bool {
    match s
    case Secure => true
    case Insecure => !cfg.requireSecure
    case Bogus => cfg.acceptBogus
  }

  /** The configuration invariant: requiring security excludes accepting bogus answers. */
  predicate Consistent(cfg: Config) {
    cfg.requireSecure ==> !cfg.acceptBogus
  }

  /** Under a consistent configuration the ordered checks decide exactly the
      state-by-state policy. */
  lemma PolicyByState(cfg: Config, res: UbResult)
    requires Consistent(cfg)
    ensures CheckResult(cfg, res) == (res.havedata && Admits(cfg, SecurityOf(res)))
  {
  }

  /** A bogus answer is accepted iff bogus answers are accepted, even when it is
      also flagged secure. */
  lemma BogusGate(cfg: Config, res: UbResult)
    requires Consistent(cfg) && res.havedata && res.bogus
    ensures CheckResult(cfg, res) <==> cfg.acceptBogus
  {
  }

  /** An insecure answer that is not bogus is accepted iff security is not required. */
  lemma InsecureGate(cfg: Config, res: UbResult)
    requires res.havedata && !res.secure && !res.bogus
    ensures CheckResult(cfg, res) <==> !cfg.requireSecure
  {
  }

  /** Without the configuration invariant the bogus gate does not hold: an unsigned
      bogus answer is refused although bogus answers are accepted. */
  lemma BogusGateNeedsConsistency()
    ensures var cfg := Config(acceptBogus := true, requireSecure := true, logging := false);
            var res := UbResult(havedata := true, secure := false, bogus := true, data := []);
            !Consistent(cfg) && cfg.acceptBogus && !CheckResult(cfg, res)
  {
  }
}
