/** Domain profiles and the policy tables keyed by them. */
module DomainPolicy {

  /** `Unsupported` stands for every enumeration value outside the four named ones. */
  datatype Profile = Generic | Industrial | Automotive | Military | Unsupported

  datatype StartupDecision = Allow | RequireProtocolCompatibility

  datatype AssuranceClass = BestEffort | Control | SafetyCritical

  const NO_PARTITION: nat := 0xFFFF_FFFF

  predicate IsValid(p: Profile) {
    !p.Unsupported?
  }

  predicate UsesAssuranceMesh(p: Profile) {
    IsValid(p) && p != Generic
  }

  function DecideStartup(p: Profile): StartupDecision {
    if !IsValid(p) then RequireProtocolCompatibility
    else if p == Generic then Allow
    else RequireProtocolCompatibility
  }

  function ClassifyStartup(p: Profile): AssuranceClass {
    match p
    case Military => SafetyCritical
    case Automotive => Control
    case Industrial => Control
    case Generic => BestEffort
    case Unsupported => SafetyCritical
  }

  function MinimumClass(p: Profile): AssuranceClass {
    ClassifyStartup(p)
  }

  /** The enumeration order of assurance classes. */
  function Rank(c: AssuranceClass): nat {
    match c
    case BestEffort => 0
    case Control => 1
    case SafetyCritical => 2
  }

  function PartitionId(p: Profile): nat {
    match p
    case Military => 30
    case Automotive => 20
    case Industrial => 10
    case Generic => 0
    case Unsupported => NO_PARTITION
  }

  predicate RequiresIdentity(p: Profile) {
    if !IsValid(p) then true else UsesAssuranceMesh(p)
  }

  predicate PartitionAllowed(p: Profile, partition: nat) {
    match p
    case Industrial => 10 <= partition < 20
    case Automotive => 20 <= partition < 30
    case Military => 30 <= partition < 40
    case Generic => partition == 0
    case Unsupported => false
  }
}
