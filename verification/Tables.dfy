/** The rows of the per-torrent tables the schedulers share. */
module Tables {
  import opened Options

  /** scheduler_allocations.desired_state */
  datatype Desired = Active | Soak | SoakCooldown | SoakResident | SoakHot | Dead | CarouselProbe

  datatype Allocation = Allocation(desired: Desired, reservedBytes: nat, seqDl: Option<bool>, allocatedAt: int)

  predicate IsActive(alloc: map<string, Allocation>, h: string) {
    h in alloc && alloc[h].desired == Desired.Active
  }

  /** Whoever is active afterwards was active before. */
  ghost predicate NobodyActivated(alloc: map<string, Allocation>, alloc': map<string, Allocation>) {
    forall h :: IsActive(alloc', h) ==> IsActive(alloc, h)
  }

  lemma NobodyNew(alloc: map<string, Allocation>)
    ensures NobodyActivated(alloc, alloc)
  {
  }

  lemma ActivatesLess(a: map<string, Allocation>, b: map<string, Allocation>, c: map<string, Allocation>)
    requires NobodyActivated(a, b) && NobodyActivated(b, c)
    ensures NobodyActivated(a, c)
  {
  }

  /** soak_state.state */
  datatype SoakPhase = Candidate | Resident | Hot | Cooldown

  datatype SoakRow = SoakRow(
    phase: SoakPhase,
    hotSince: Option<int>,
    residentSince: Option<int>,
    cooldownUntil: Option<int>,
    exposure: nat,
    ema: nat,
    sampledAt: Option<int>)

  /** torrent_health */
  datatype HealthRow = HealthRow(
    dlspeed: nat,
    completed: nat,
    progress: real,
    lastSwarmSeenAt: Option<int>,
    lowSpeedSince: Option<int>,
    noProgressSince: Option<int>,
    activeSince: Option<int>,
    soakSince: Option<int>,
    deadSince: Option<int>)
}
