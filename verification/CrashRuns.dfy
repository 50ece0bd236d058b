/** Whole runs in which workers, promoter, reaper, sweeper and scheduler interleave arbitrarily and
    every script may stop after any prefix of its writes. */
module CrashRuns {
  import opened Keyspace
  import opened Scripts
  import opened Discipline
  import opened CrashSafety

  /** Call i starts in states[i] and performs its first cuts[i] writes. */
  datatype History = History(states: seq<State>, calls: seq<Call>, cuts: seq<nat>)

  ghost predicate IsRun(cfg: Config, h: History) {
    && cfg.Valid()
    && |h.states| == |h.calls| + 1 && |h.cuts| == |h.calls|
    && Consistent(cfg, h.states[0])
    && forall i :: 0 <= i < |h.calls| ==>
         && Enabled(cfg, h.states[i], h.calls[i])
         && h.states[i + 1] == RunPrefix(h.states[i], Script(cfg, h.states[i], h.calls[i]), h.cuts[i])
  }

  lemma {:induction false} RunConsistent(cfg: Config, h: History, i: nat)
    requires IsRun(cfg, h) && i <= |h.calls|
    ensures Consistent(cfg, h.states[i])
  {
    if i > 0 {
      RunConsistent(cfg, h, i - 1);
      CrashSafe(cfg, h.states[i - 1], h.calls[i - 1], h.cuts[i - 1]);
    }
  }

  lemma StepReached(cfg: Config, h: History, i: nat)
    requires IsRun(cfg, h) && i < |h.calls|
    ensures Reached(cfg, h.states[i], h.calls[i], h.states[i + 1])
  {
    RunConsistent(cfg, h, i);
    CrashSafe(cfg, h.states[i], h.calls[i], h.cuts[i]);
  }

  lemma StepEvolves(cfg: Config, h: History, i: nat)
    requires IsRun(cfg, h) && i < |h.calls|
    ensures Evolves(h.states[i], h.calls[i], h.states[i + 1])
  {
    StepReached(cfg, h, i);
  }

  // ---- nothing is lost ----

  /** Call i acknowledges a leased job of u. */
  ghost predicate AcksAt(h: History, i: nat, u: Url)
    requires i < |h.calls| && i < |h.states|
  {
    Acknowledges(h.states[i], h.calls[i], u)
  }

  /** Once the frontier knows a URL it stays live, dead or scheduled until an Ack, whatever is cut short. */
  lemma {:induction false} NeverLost(cfg: Config, h: History, i: nat, j: nat, u: Url)
    requires IsRun(cfg, h) && i <= j <= |h.calls| && Covered(cfg, h.states[i], u)
    requires forall m: nat :: i <= m < j ==> !AcksAt(h, m, u)
    ensures Covered(cfg, h.states[j], u)
    decreases j
  {
    if i < j {
      NeverLost(cfg, h, i, j - 1, u);
      StepReached(cfg, h, j - 1);
      assert !AcksAt(h, j - 1, u);
    }
  }

  lemma StepStrands(cfg: Config, h: History, i: nat, u: Url)
    requires IsRun(cfg, h) && i < |h.calls| && Stranded(h.states[i + 1], u) && !AcksAt(h, i, u)
    ensures Stranded(h.states[i], u)
  {
    StepReached(cfg, h, i);
  }

  lemma {:induction false} StrandedBefore(cfg: Config, h: History, i: nat, j: nat, u: Url)
    requires IsRun(cfg, h) && i <= j <= |h.calls| && Stranded(h.states[j], u)
    requires forall m: nat :: i <= m < j ==> !AcksAt(h, m, u)
    ensures Stranded(h.states[i], u)
    decreases j
  {
    if i < j {
      StepStrands(cfg, h, j - 1, u);
      StrandedBefore(cfg, h, i, j - 1, u);
    }
  }

  /** Every PENDING listing has a live job, unless it had none at first or a leased job of it has been
      acknowledged since, whatever is cut short. */
  lemma PendingIsLive(cfg: Config, h: History, i: nat, j: nat, u: Url)
    requires IsRun(cfg, h) && i <= j <= |h.calls| && Pending(h.states[j], u) && !Stranded(h.states[i], u)
    requires forall m: nat :: i <= m < j ==> !AcksAt(h, m, u)
    ensures LiveUrl(h.states[j], u)
  {
    if Stranded(h.states[j], u) {
      StrandedBefore(cfg, h, i, j, u);
    }
  }

  // ---- lease order ----

  /** Call i takes the rightmost ready job. */
  ghost predicate TakesAt(h: History, i: nat)
    requires i < |h.calls| && i < |h.states| && i < |h.cuts|
  {
    h.calls[i].Lease? && h.states[i].ready != [] && h.cuts[i] >= 1
  }

  ghost function Taken(h: History, i: nat): Job
    requires i < |h.calls| && i < |h.states| && i < |h.cuts| && TakesAt(h, i)
  {
    Last(h.states[i].ready)
  }

  /** Everything still waiting, now or later, has a larger ID than id. */
  ghost predicate Behind(s: State, id: nat) {
    id <= s.jobSeq && forall j :: j in s.ready ==> j.id > id
  }

  lemma LeasePrefix(cfg: Config, s: State, c: Call, k: nat)
    requires cfg.Valid() && c.Lease? && s.ready != [] && k >= 1
    ensures var t := RunPrefix(s, Script(cfg, s, c), k);
            t.ready == s.ready[..|s.ready| - 1] && t.jobSeq == s.jobSeq
  {
    var w := SetLease(Last(s.ready), c.now + cfg.leaseTimeout);
    assert Script(cfg, s, c) == Do(MoveReady, Do(w, Done));
    var s1 := Apply(s, MoveReady);
    assert RunPrefix(s, Script(cfg, s, c), k) == RunPrefix(s1, Do(w, Done), k - 1);
  }

  lemma LastBehind(cfg: Config, s: State, t: State)
    requires Consistent(cfg, s) && s.ready != []
    requires t.ready == s.ready[..|s.ready| - 1] && t.jobSeq == s.jobSeq
    ensures Behind(t, Last(s.ready).id)
  {
    assert IsLive(s, Last(s.ready));
  }

  lemma TakenBehind(cfg: Config, h: History, i: nat)
    requires IsRun(cfg, h) && i < |h.calls| && TakesAt(h, i)
    ensures h.states[i + 1].ready == h.states[i].ready[..|h.states[i].ready| - 1]
    ensures Behind(h.states[i + 1], Taken(h, i).id)
  {
    RunConsistent(cfg, h, i);
    LeasePrefix(cfg, h.states[i], h.calls[i], h.cuts[i]);
    LastBehind(cfg, h.states[i], h.states[i + 1]);
  }

  lemma {:induction false} StaysBehind(cfg: Config, h: History, i: nat, j: nat, id: nat)
    requires IsRun(cfg, h) && i <= j <= |h.calls| && Behind(h.states[i], id)
    ensures Behind(h.states[j], id)
    decreases j
  {
    if i < j {
      StaysBehind(cfg, h, i, j - 1, id);
      StepEvolves(cfg, h, j - 1);
    }
  }

  /** IDs are leased in strictly increasing order; in particular no ID is leased twice. */
  lemma LeaseOrder(cfg: Config, h: History, i: nat, j: nat)
    requires IsRun(cfg, h) && i < j < |h.calls| && TakesAt(h, i) && TakesAt(h, j)
    ensures Taken(h, i).id < Taken(h, j).id
  {
    TakenBehind(cfg, h, i);
    StaysBehind(cfg, h, i + 1, j, Taken(h, i).id);
    assert Taken(h, j) in h.states[j].ready;
  }

  /** How many jobs were taken from ready by the calls i, ..., j - 1. */
  ghost function Takes(h: History, i: nat, j: nat): nat
    requires i <= j <= |h.calls| && |h.calls| <= |h.states| && |h.calls| <= |h.cuts|
    decreases j
  {
    if i == j then 0 else Takes(h, i, j - 1) + if TakesAt(h, j - 1) then 1 else 0
  }

  /** The job k places from the right end of ready. */
  ghost predicate Waits(s: State, j: Job, k: nat) {
    k < |s.ready| && s.ready[|s.ready| - 1 - k] == j
  }

  lemma SuffixWaits(s: State, t: State, j: Job, k: nat)
    requires Suffix(s.ready, t.ready) && Waits(s, j, k)
    ensures Waits(t, j, k)
  {
    var n := |t.ready| - |s.ready|;
    assert t.ready[n..][|s.ready| - 1 - k] == t.ready[|t.ready| - 1 - k];
  }

  lemma NotTaken(cfg: Config, h: History, i: nat)
    requires IsRun(cfg, h) && i < |h.calls| && !TakesAt(h, i)
    ensures Suffix(h.states[i].ready, h.states[i + 1].ready)
  {
    if h.calls[i].Lease? {
      assert h.states[i + 1] == h.states[i];
    } else {
      StepEvolves(cfg, h, i);
    }
  }

  lemma WaitsStep(cfg: Config, h: History, i: nat, j: Job, k: nat)
    requires IsRun(cfg, h) && i < |h.calls| && Waits(h.states[i], j, k)
    ensures TakesAt(h, i) && k == 0 ==> Taken(h, i) == j
    ensures TakesAt(h, i) && k > 0 ==> Waits(h.states[i + 1], j, k - 1)
    ensures !TakesAt(h, i) ==> Waits(h.states[i + 1], j, k)
  {
    var s, t := h.states[i], h.states[i + 1];
    if TakesAt(h, i) {
      TakenBehind(cfg, h, i);
    } else {
      NotTaken(cfg, h, i);
      SuffixWaits(s, t, j, k);
    }
  }

  /** First in, first out: a job with k others before it is the (k+1)-th one taken. */
  lemma {:induction false} FirstInFirstOut(cfg: Config, h: History, i: nat, m: nat, j: Job, k: nat)
    requires IsRun(cfg, h) && i <= m <= |h.calls| && Waits(h.states[i], j, k) && Takes(h, i, m) <= k
    ensures Waits(h.states[m], j, k - Takes(h, i, m))
    ensures m < |h.calls| && TakesAt(h, m) && Takes(h, i, m) == k ==> Taken(h, m) == j
    decreases m
  {
    if i < m {
      FirstInFirstOut(cfg, h, i, m - 1, j, k);
      WaitsStep(cfg, h, m - 1, j, k - Takes(h, i, m - 1));
    }
    if m < |h.calls| {
      WaitsStep(cfg, h, m, j, k - Takes(h, i, m));
    }
  }

  // ---- fencing ----

  /** Call i takes the lease of j away. */
  ghost predicate ClaimsAt(h: History, i: nat, j: Job)
    requires i + 1 < |h.states|
  {
    j in h.states[i].lease && j !in h.states[i + 1].lease
  }

  /** j was handed out once and can never be leased again. */
  ghost predicate Spent(s: State, j: Job) {
    j.id <= s.jobSeq && j !in s.ready && j !in s.lease
  }

  lemma SpentStep(s: State, c: Call, t: State, j: Job)
    requires Evolves(s, c, t) && Spent(s, j)
    ensures Spent(t, j)
  {
    assert s.ready != [] ==> Last(s.ready) in s.ready;
  }

  lemma {:induction false} StaysSpent(cfg: Config, h: History, i: nat, m: nat, j: Job)
    requires IsRun(cfg, h) && i <= m <= |h.calls| && Spent(h.states[i], j)
    ensures Spent(h.states[m], j)
    decreases m
  {
    if i < m {
      StaysSpent(cfg, h, i, m - 1, j);
      StepEvolves(cfg, h, m - 1);
      SpentStep(h.states[m - 1], h.calls[m - 1], h.states[m], j);
    }
  }

  lemma LeasedNotReady(cfg: Config, s: State, j: Job)
    requires Consistent(cfg, s) && j in s.lease
    ensures j !in s.ready && j.id <= s.jobSeq
  {
    assert j in s.processing && IsLive(s, j);
  }

  /** A lease is claimed at most once, by whichever resolution or reap comes first. */
  lemma ClaimedOnce(cfg: Config, h: History, i: nat, m: nat, j: Job)
    requires IsRun(cfg, h) && i < m < |h.calls| && ClaimsAt(h, i, j)
    ensures j !in h.states[m].lease && !ClaimsAt(h, m, j)
  {
    RunConsistent(cfg, h, i);
    LeasedNotReady(cfg, h.states[i], j);
    StepEvolves(cfg, h, i);
    StaysSpent(cfg, h, i + 1, m, j);
  }

  /** Call i ends the life of j: it is live before and not after. */
  ghost predicate EndsAt(h: History, i: nat, j: Job)
    requires i + 1 < |h.states|
  {
    IsLive(h.states[i], j) && !IsLive(h.states[i + 1], j)
  }

  lemma EndedStep(s: State, c: Call, t: State, j: Job)
    requires Evolves(s, c, t) && !IsLive(s, j) && j.id <= s.jobSeq
    ensures !IsLive(t, j) && j.id <= t.jobSeq
  {
  }

  lemma {:induction false} StaysGone(cfg: Config, h: History, i: nat, m: nat, j: Job)
    requires IsRun(cfg, h) && i <= m <= |h.calls| && !IsLive(h.states[i], j) && j.id <= h.states[i].jobSeq
    ensures !IsLive(h.states[m], j) && j.id <= h.states[m].jobSeq
    decreases m
  {
    if i < m {
      StaysGone(cfg, h, i, m - 1, j);
      StepEvolves(cfg, h, m - 1);
      EndedStep(h.states[m - 1], h.calls[m - 1], h.states[m], j);
    }
  }

  /** A job ends at most once, by whichever Ack, Nack, Fail, Terminal, CompleteListing, Promote, Reap, Sweep or
      rolled-back admission comes first: afterwards it is in no queue again. */
  lemma EndsOnce(cfg: Config, h: History, i: nat, m: nat, j: Job)
    requires IsRun(cfg, h) && i < m < |h.calls| && EndsAt(h, i, j)
    ensures !IsLive(h.states[m], j) && !EndsAt(h, m, j)
  {
    RunConsistent(cfg, h, i);
    StepEvolves(cfg, h, i);
    StaysGone(cfg, h, i + 1, m, j);
  }

  /** A resolution without a live lease answers STALE and issues no write at all. */
  lemma StaleIsNoop(cfg: Config, s: State, c: Call)
    requires cfg.Valid() && IsResolution(c) && c.job !in s.lease
    ensures Answer(cfg, s, c) == Stale && Script(cfg, s, c) == Done && Exec(cfg, s, c) == s
  {
  }

  lemma UnleasedWrite(cfg: Config, base: State, c: Call, j: Job, s: State, w: Write)
    requires !c.Lease? && Safe(cfg, base, c, s, w) && j !in s.lease
    ensures j !in Apply(s, w).lease
  {
  }

  lemma {:induction false} UnleasedStays(cfg: Config, base: State, c: Call, j: Job, s: State, ws: Writes, k: nat)
    requires !c.Lease? && SafeAll(cfg, base, c, s, ws) && j !in s.lease
    ensures j !in RunPrefix(s, ws, k).lease
    decreases ws
  {
    if k > 0 && ws.Do? {
      UnleasedWrite(cfg, base, c, j, s, ws.first);
      UnleasedStays(cfg, base, c, j, Apply(s, ws.first), ws.rest, k - 1);
    }
  }

  lemma ClaimsFirst(cfg: Config, s: State, c: Call)
    requires cfg.Valid() && IsResolution(c) && c.job in s.lease
    ensures Script(cfg, s, c).Do? && Script(cfg, s, c).first == RemLease(c.job)
  {
  }

  lemma ClaimedPrefix(cfg: Config, s: State, c: Call, ws: Writes, k: nat)
    requires IsResolution(c) && SafeAll(cfg, s, c, s, ws) && ws.Do? && ws.first == RemLease(c.job) && k >= 1
    ensures c.job !in RunPrefix(s, ws, k).lease
  {
    UnleasedStays(cfg, s, c, c.job, Apply(s, ws.first), ws.rest, k - 1);
  }

  /** A resolution that gets past its first write has claimed the lease, wherever it stops. */
  lemma ResolutionClaims(cfg: Config, h: History, i: nat)
    requires IsRun(cfg, h) && i < |h.calls| && IsResolution(h.calls[i]) && h.cuts[i] >= 1
    requires h.calls[i].job in h.states[i].lease
    ensures ClaimsAt(h, i, h.calls[i].job)
  {
    var s, c := h.states[i], h.calls[i];
    RunConsistent(cfg, h, i);
    ScriptSafe(cfg, s, c);
    ClaimsFirst(cfg, s, c);
    ClaimedPrefix(cfg, s, c, Script(cfg, s, c), h.cuts[i]);
  }
}
