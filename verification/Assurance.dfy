/** The assurance mesh: start-up and peer admission decisions composed from the domain policy. */
module Assurance {
  import opened DomainPolicy

  datatype Status =
    | Ok
    | InvalidParam
    | InvalidState
    | OperationFailed
    | VersionMismatch
    | NotInitialized
    | AlreadyExists
    | ListFull
    | NotFound
    | OutOfMemory

  datatype Protocol = Protocol(localMajor: nat, localMinor: nat, peerMajor: nat, peerMinor: nat)

  datatype Snapshot = Snapshot(decision: StartupDecision, assurance: AssuranceClass, partition: nat)

  datatype Admission = Admission(profile: Profile, localPeerId: string, remotePeerId: string, partition: nat)

  function ResolvePolicy(p: Profile): Snapshot {
    Snapshot(DecideStartup(p), ClassifyStartup(p), PartitionId(p))
  }

  function ValidateSnapshot(p: Profile, s: Snapshot): Status {
    if !PartitionAllowed(p, s.partition) then InvalidState
    else if Rank(s.assurance) < Rank(MinimumClass(p)) then InvalidState
    else Ok
  }

  predicate Compatible(c: Protocol) {
    if c.localMajor != c.peerMajor then false
    else if c.peerMinor > c.localMinor then false
    else true
  }

  function EvaluateStartup(p: Profile, c: Protocol): Status {
    var snapshot := ResolvePolicy(p);
    if ValidateSnapshot(p, snapshot) != Ok then InvalidState
    else if snapshot.decision == Allow then Ok
    else if !Compatible(c) then VersionMismatch
    else Ok
  }

  function EvaluateAdmission(a: Admission): Status {
    if !PartitionAllowed(a.profile, a.partition) then InvalidState
    else if RequiresIdentity(a.profile) && a.localPeerId == "" then InvalidState
    else if RequiresIdentity(a.profile) && a.remotePeerId == "" then InvalidState
    else Ok
  }

  /** A policy snapshot is valid exactly on a partition of the profile and with a class not below the profile's. */
  lemma SnapshotIff(p: Profile, s: Snapshot)
    ensures ValidateSnapshot(p, s) == Ok <==>
            || (p == Generic && s.partition == 0)
            || (p == Industrial && s.partition / 10 == 1 && s.assurance != BestEffort)
            || (p == Automotive && s.partition / 10 == 2 && s.assurance != BestEffort)
            || (p == Military && s.partition / 10 == 3 && s.assurance == SafetyCritical)
    ensures ValidateSnapshot(p, s) != Ok ==> ValidateSnapshot(p, s) == InvalidState
  {
  }

  /** Start-up is granted to the generic profile, and to the others exactly on a compatible wire version. */
  lemma StartupVerdict(p: Profile, c: Protocol)
    ensures EvaluateStartup(p, c) == Ok <==>
            p == Generic || (IsValid(p) && c.localMajor == c.peerMajor && c.peerMinor <= c.localMinor)
    ensures p == Unsupported ==> EvaluateStartup(p, c) == InvalidState
  {
  }

  /** A peer on the profile's own partition is admitted unless a required identity is missing. */
  lemma AdmissionVerdict(p: Profile, localPeerId: string, remotePeerId: string)
    ensures EvaluateAdmission(Admission(p, localPeerId, remotePeerId, PartitionId(p))) == Ok <==>
            p == Generic || (IsValid(p) && localPeerId != "" && remotePeerId != "")
  {
  }

  /** A peer is admitted on the ten partitions of the profile's decade, the generic one on partition zero alone. */
  lemma AdmissionIff(a: Admission)
    ensures EvaluateAdmission(a) == Ok <==>
            if a.profile == Generic then a.partition == 0
            else && a.localPeerId != "" && a.remotePeerId != ""
                 && ((a.profile == Industrial && a.partition / 10 == 1)
                     || (a.profile == Automotive && a.partition / 10 == 2)
                     || (a.profile == Military && a.partition / 10 == 3))
    ensures EvaluateAdmission(a) != Ok ==> EvaluateAdmission(a) == InvalidState
  {
  }

  /** No partition is open to two profiles, so a partition id determines the profile that admits it. */
  lemma PartitionsSeparateProfiles(a: Admission, b: Admission)
    requires a.partition == b.partition
    requires EvaluateAdmission(a) == Ok && EvaluateAdmission(b) == Ok
    ensures a.profile == b.profile
  {
  }
}
