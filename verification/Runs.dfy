/** Whole runs of completed scripts: the exact invariant, and what it gives a caller over time. */
module Runs {
  import opened Keyspace
  import opened Scripts
  import opened Discipline
  import opened CrashSafety
  import opened Effects
  import opened Exactness
  import opened CrashRuns
  import opened Stranding

  /** Call i takes states[i] to states[i + 1]. */
  datatype Trace = Trace(states: seq<State>, calls: seq<Call>)

  ghost predicate IsTrace(cfg: Config, tr: Trace) {
    && cfg.Valid()
    && |tr.states| == |tr.calls| + 1
    && Exact(cfg, tr.states[0])
    && forall i :: 0 <= i < |tr.calls| ==>
         && Enabled(cfg, tr.states[i], tr.calls[i])
         && tr.states[i + 1] == Exec(cfg, tr.states[i], tr.calls[i])
  }

  /** The exact invariant in every reachable state. */
  lemma {:induction false} TraceExact(cfg: Config, tr: Trace, i: nat)
    requires IsTrace(cfg, tr) && i <= |tr.calls|
    ensures Exact(cfg, tr.states[i])
  {
    if i > 0 {
      TraceExact(cfg, tr, i - 1);
      StepExact(cfg, tr.states[i - 1], tr.calls[i - 1]);
    }
  }

  /** A run of completed scripts is a run, so the theorems about crashes apply to it. */
  lemma TraceIsRun(cfg: Config, tr: Trace) returns (h: History)
    requires IsTrace(cfg, tr)
    ensures IsRun(cfg, h) && h.states == tr.states && h.calls == tr.calls
  {
    var cuts := seq(|tr.calls|, i requires 0 <= i < |tr.calls| => Length(Script(cfg, tr.states[i], tr.calls[i])));
    h := History(tr.states, tr.calls, cuts);
    forall i | 0 <= i < |tr.calls|
      ensures tr.states[i + 1] == RunPrefix(tr.states[i], Script(cfg, tr.states[i], tr.calls[i]), cuts[i])
    {
      WholePrefix(tr.states[i], Script(cfg, tr.states[i], tr.calls[i]), cuts[i]);
    }
  }

  // ---- PENDING exactness ----

  /** The worker acknowledges any job whose URL no longer canonicalises. A listing it acknowledged, or one that
      was stranded to begin with, keeps its PENDING mark. */
  ghost predicate Discarded(cfg: Config, tr: Trace, i: nat, u: Url)
    requires IsTrace(cfg, tr) && i <= |tr.calls|
  {
    || Stranded(tr.states[0], u)
    || (!cfg.IsVideo(u) && exists k :: 0 <= k < i && Acknowledges(tr.states[k], tr.calls[k], u))
  }

  lemma DroppedLast(s: State, t: State, j: Job)
    requires Solo(s) && IsLive(s, j) && Dropped(s, t, j)
    ensures !LiveUrl(t, j.url)
  {
    forall x | IsLive(t, x)
      ensures x.url != j.url
    {
      assert IsLive(s, x);
    }
  }

  lemma LeasedPending(cfg: Config, s: State, j: Job)
    requires Exact(cfg, s) && j in s.lease && !cfg.IsVideo(j.url)
    ensures Pending(s, j.url) && IsLive(s, j)
  {
    assert IsLive(s, j);
  }

  lemma Strands(s: State, t: State, j: Job)
    requires Solo(s) && IsLive(s, j) && Pending(s, j.url) && Dropped(s, t, j) && t.next == s.next
    ensures Stranded(t, j.url)
  {
    DroppedLast(s, t, j);
  }

  lemma AckStrands(cfg: Config, s: State, j: Job)
    requires cfg.Valid() && Exact(cfg, s) && j in s.lease && !cfg.IsVideo(j.url)
    ensures Stranded(Exec(cfg, s, Ack(j)), j.url)
  {
    var r := Apply(s, RemLease(j));
    var t := Closed(r, j);
    UnleasedReleased(s, j);
    LeasedPending(cfg, s, j);
    ClosedDropped(s, j, r);
    Strands(s, t, j);
    AckRun(cfg, s, Ack(j));
  }

  /** A discarded listing stays PENDING without a job for the rest of the run. */
  lemma DiscardedIsStranded(cfg: Config, tr: Trace, i: nat, u: Url)
    requires IsTrace(cfg, tr) && i <= |tr.calls| && Discarded(cfg, tr, i, u)
    ensures Stranded(tr.states[i], u)
  {
    var h := TraceIsRun(cfg, tr);
    if Stranded(tr.states[0], u) {
      StrandedForever(cfg, h, 0, i, u);
    } else {
      var k :| 0 <= k < i && Acknowledges(tr.states[k], tr.calls[k], u);
      TraceExact(cfg, tr, k);
      AckStrands(cfg, tr.states[k], tr.calls[k].job);
      StrandedForever(cfg, h, k + 1, i, u);
    }
  }

  /** In every reachable state a listing is PENDING exactly when it has a live job or was discarded, and never
      both. */
  lemma TracePending(cfg: Config, tr: Trace, i: nat, u: Url)
    requires IsTrace(cfg, tr) && i <= |tr.calls| && !cfg.IsVideo(u)
    ensures Pending(tr.states[i], u) <==> LiveUrl(tr.states[i], u) || Discarded(cfg, tr, i, u)
    ensures !(LiveUrl(tr.states[i], u) && Discarded(cfg, tr, i, u))
  {
    TraceExact(cfg, tr, i);
    if Discarded(cfg, tr, i, u) {
      DiscardedIsStranded(cfg, tr, i, u);
    } else if Stranded(tr.states[i], u) {
      StrandedIsDiscarded(cfg, tr, i, u);
    } else if LiveUrl(tr.states[i], u) {
      var j :| IsLive(tr.states[i], j) && j.url == u;
    }
  }

  lemma StrandedIsDiscarded(cfg: Config, tr: Trace, i: nat, u: Url)
    requires IsTrace(cfg, tr) && i <= |tr.calls| && Stranded(tr.states[i], u) && !cfg.IsVideo(u)
    ensures Discarded(cfg, tr, i, u)
  {
    var h := TraceIsRun(cfg, tr);
    if forall m: nat :: 0 <= m < i ==> !AcksAt(h, m, u) {
      StrandedBefore(cfg, h, 0, i, u);
    } else {
      var m: nat :| 0 <= m < i && AcksAt(h, m, u);
      assert Acknowledges(tr.states[m], tr.calls[m], u);
    }
  }

  function Jobs(s: State): set<Job> {
    (set j | j in s.ready) + (set j | j in s.processing) + s.delayed.Keys
  }

  function JobsOf(s: State, u: Url): set<Job> {
    set j | j in Jobs(s) && j.url == u
  }

  lemma CountOne(cfg: Config, s: State, u: Url)
    requires Exact(cfg, s)
    ensures |JobsOf(s, u)| == if LiveUrl(s, u) then 1 else 0
  {
    forall j
      ensures j in Jobs(s) <==> IsLive(s, j)
    {
    }
    if LiveUrl(s, u) {
      var j :| IsLive(s, j) && j.url == u;
      assert JobsOf(s, u) == {j};
    } else {
      assert JobsOf(s, u) == {};
    }
  }

  /** Across ready, processing and delayed, a listing that was not discarded has one job if it is PENDING and
      none if it is not; a discarded one has none. */
  lemma PendingCount(cfg: Config, tr: Trace, i: nat, u: Url)
    requires IsTrace(cfg, tr) && i <= |tr.calls| && !cfg.IsVideo(u)
    ensures |JobsOf(tr.states[i], u)| == if Pending(tr.states[i], u) && !Discarded(cfg, tr, i, u) then 1 else 0
  {
    TraceExact(cfg, tr, i);
    TracePending(cfg, tr, i, u);
    CountOne(cfg, tr.states[i], u);
  }

  lemma OneLeasePerUrl(cfg: Config, s: State, i: Job, j: Job)
    requires Exact(cfg, s) && i in s.lease && j in s.lease && i.url == j.url
    ensures i == j
  {
    assert IsLive(s, i) && IsLive(s, j);
  }

  predicate Idle(s: State) {
    |s.ready| == 0 && |s.processing| == 0 && |s.delayed| == 0
  }

  lemma IdleNotLive(s: State, u: Url)
    requires Idle(s)
    ensures !LiveUrl(s, u)
  {
    assert s.delayed.Keys == {};
    assert forall j :: !IsLive(s, j);
  }

  /** When the queues are empty no listing is PENDING, except one that was stranded at first or acknowledged,
      even after scripts were cut short. */
  lemma IdleNothingPending(cfg: Config, h: History, i: nat, u: Url)
    requires IsRun(cfg, h) && i <= |h.calls| && Idle(h.states[i]) && !Stranded(h.states[0], u)
    requires forall m: nat :: 0 <= m < i ==> !AcksAt(h, m, u)
    ensures !Pending(h.states[i], u)
  {
    IdleNotLive(h.states[i], u);
    if Pending(h.states[i], u) {
      PendingIsLive(cfg, h, 0, i, u);
    }
  }

  // ---- acknowledging a listing ----

  ghost predicate NoneStranded(s: State) {
    forall u :: !Stranded(s, u)
  }

  /** Acknowledging a job keeps every PENDING listing live exactly when the job is a video's or stale. */
  lemma AckKeepsPendingIff(cfg: Config, s: State, j: Job)
    requires cfg.Valid() && Exact(cfg, s) && NoneStranded(s)
    ensures NoneStranded(Exec(cfg, s, Ack(j))) <==> (cfg.IsVideo(j.url) || j !in s.lease)
  {
    if j in s.lease && !cfg.IsVideo(j.url) {
      AckStrands(cfg, s, j);
    } else {
      ExecReached(cfg, s, Ack(j));
    }
  }

  /** One listing, leased and acknowledged: PENDING, with no job left to release it. */
  lemma AckStrandsExample(cfg: Config, u: Url)
    requires cfg.Valid() && !cfg.IsVideo(u)
    ensures var s := Exec(cfg, Exec(cfg, Exec(cfg, EMPTY, AdmitListing(u, 0)), Lease(0)), Ack(Job(1, u)));
            Idle(s) && Stranded(s, u)
  {
    var j := Job(1, u);
    AdmitListingRun(cfg, EMPTY, AdmitListing(u, 0));
    var s1 := Exec(cfg, EMPTY, AdmitListing(u, 0));
    assert s1.ready == [j];
    LeaseRun(cfg, s1, Lease(0));
    var s2 := Exec(cfg, s1, Lease(0));
    assert s2.processing == [j] && s2.ready == [];
    AckRun(cfg, s2, Ack(j));
    IdleNotLive(Exec(cfg, s2, Ack(j)), u);
  }

  // ---- fencing ----

  /** From s to t, c resolves j, reaps it, or sweeps anything at all. */
  ghost predicate TakesEffect(s: State, c: Call, t: State, j: Job) {
    || (IsResolution(c) && c.job == j && t != s)
    || (c.Reap? && j in s.lease && j !in t.lease)
    || (c.Sweep? && t != s)
  }

  lemma ResolvedUnleased(cfg: Config, s: State, c: Call)
    requires cfg.Valid() && Consistent(cfg, s) && Enabled(cfg, s, c) && IsResolution(c) && c.job in s.lease
    ensures c.job !in Exec(cfg, s, c).lease
  {
    var ws := Script(cfg, s, c);
    ScriptSafe(cfg, s, c);
    ClaimsFirst(cfg, s, c);
    ClaimedPrefix(cfg, s, c, ws, Length(ws));
    WholePrefix(s, ws, Length(ws));
  }

  lemma EffectClaims(cfg: Config, s: State, c: Call, t: State, j: Job)
    requires cfg.Valid() && Exact(cfg, s) && Enabled(cfg, s, c) && t == Exec(cfg, s, c) && TakesEffect(s, c, t, j)
    ensures j in s.lease && j !in t.lease && !c.Sweep?
  {
    if c.Sweep? {
      SweepNothing(s, SweepItems(s));
    } else if IsResolution(c) && j in s.lease {
      ResolvedUnleased(cfg, s, c);
    } else if IsResolution(c) {
      StaleIsNoop(cfg, s, c);
    }
  }

  ghost predicate EffectAt(tr: Trace, i: nat, j: Job)
    requires i < |tr.calls| && i + 1 < |tr.states|
  {
    TakesEffect(tr.states[i], tr.calls[i], tr.states[i + 1], j)
  }

  lemma EffectClaimsAt(cfg: Config, tr: Trace, i: nat, j: Job)
    requires IsTrace(cfg, tr) && i < |tr.calls| && EffectAt(tr, i, j)
    ensures j in tr.states[i].lease && j !in tr.states[i + 1].lease && !tr.calls[i].Sweep?
  {
    TraceExact(cfg, tr, i);
    EffectClaims(cfg, tr.states[i], tr.calls[i], tr.states[i + 1], j);
  }

  /** Of all the resolutions, reaps and sweeps of a run at most one takes effect on a job, and it is no sweep. */
  lemma AtMostOneEffect(cfg: Config, tr: Trace, i: nat, m: nat, j: Job)
    requires IsTrace(cfg, tr) && i < m < |tr.calls| && EffectAt(tr, i, j)
    ensures !tr.calls[i].Sweep? && !EffectAt(tr, m, j)
  {
    var h := TraceIsRun(cfg, tr);
    EffectClaimsAt(cfg, tr, i, j);
    ClaimedOnce(cfg, h, i, m, j);
    if EffectAt(tr, m, j) {
      EffectClaimsAt(cfg, tr, m, j);
    }
  }
}
