/** Backoff, revisit and quarantine times are lower bounds over whole runs, and a dead video stays dead. */
module Deadlines {
  import opened Keyspace
  import opened Scripts
  import opened Discipline
  import opened Effects
  import opened Exactness
  import opened Frames
  import opened Runs
  import opened CrashRuns
  import opened Stranding

  /** A call that read a clock of at least t and may start work because of it. */
  predicate Observes(c: Call, t: int) {
    (c.AdmitListing? || c.Schedule? || c.Promote?) && c.now >= t
  }

  /** The call is such a one, and u is among the URLs it is about. */
  predicate Awakens(s: State, c: Call, u: Url, t: int) {
    Observes(c, t) && u in Subjects(s, c)
  }

  ghost predicate DelayedUntil(s: State, u: Url, t: int) {
    exists j :: j in s.delayed && j.url == u && s.delayed[j] >= t
  }

  ghost predicate RestsUntil(cfg: Config, s: State, u: Url, t: int) {
    !cfg.IsVideo(u) && !LiveUrl(s, u) && u in s.next && s.next[u] >= t
  }

  /** u has no job a worker could lease, and none before t: its job is delayed, or it is not due. */
  ghost predicate Held(cfg: Config, s: State, u: Url, t: int) {
    DelayedUntil(s, u, t) || RestsUntil(cfg, s, u, t)
  }

  lemma HeldIdle(cfg: Config, s: State, u: Url, t: int, j: Job)
    requires Exact(cfg, s) && Held(cfg, s, u, t) && j.url == u
    ensures j !in s.ready && j !in s.processing && j !in s.lease
    ensures j in s.delayed ==> s.delayed[j] >= t
  {
    if IsLive(s, j) && DelayedUntil(s, u, t) {
      var i :| i in s.delayed && i.url == u && s.delayed[i] >= t;
      assert IsLive(s, i);
      assert i == j;
    }
  }

  lemma HeldSame(cfg: Config, s: State, r: State, u: Url, t: int)
    requires Held(cfg, s, u, t) && SameJobs(s, r, u) && SameAt(s.next, r.next, u)
    ensures Held(cfg, r, u, t)
  {
    if DelayedUntil(s, u, t) {
      var j :| j in s.delayed && j.url == u && s.delayed[j] >= t;
      assert j in r.delayed;
    } else {
      forall j | IsLive(r, j)
        ensures j.url != u
      {
        assert j.url == u ==> IsLive(s, j);
      }
    }
  }

  lemma HeldMarked(cfg: Config, s: State, u: Url, t: int)
    requires Exact(cfg, s) && Held(cfg, s, u, t)
    ensures cfg.IsVideo(u) ==> u in s.claimed && u !in s.dead
    ensures !cfg.IsVideo(u) ==> u in s.next && (s.next[u] == PENDING_SCORE || s.next[u] >= t)
  {
    if DelayedUntil(s, u, t) {
      var j :| j in s.delayed && j.url == u && s.delayed[j] >= t;
      assert IsLive(s, j);
    }
  }

  lemma HeldAdmitVideo(cfg: Config, s: State, c: Call, t: int)
    requires cfg.Valid() && Exact(cfg, s) && c.AdmitVideo? && Enabled(cfg, s, c) && Held(cfg, s, c.url, t)
    ensures Held(cfg, Exec(cfg, s, c), c.url, t)
  {
    HeldMarked(cfg, s, c.url, t);
    AdmitVideoRun(cfg, s, c);
    HeldSame(cfg, s, Exec(cfg, s, c), c.url, t);
  }

  lemma HeldAdmitListing(cfg: Config, s: State, c: Call, t: int)
    requires cfg.Valid() && Exact(cfg, s) && c.AdmitListing? && Enabled(cfg, s, c) && Held(cfg, s, c.url, t)
    requires c.now < t
    ensures Held(cfg, Exec(cfg, s, c), c.url, t)
  {
    HeldMarked(cfg, s, c.url, t);
    if !(c.url in s.dead && s.dead[c.url].Blocks(c.now)) {
      AdmitListingRun(cfg, s, c);
      HeldSame(cfg, s, Forgiven(s, c.url), c.url, t);
    }
  }

  /** The call cannot be about a held URL unless it is an admission. */
  lemma HeldNotSubject(cfg: Config, s: State, c: Call, u: Url, t: int)
    requires cfg.Valid() && Exact(cfg, s) && Enabled(cfg, s, c) && Held(cfg, s, u, t) && !Observes(c, t)
    requires c.Lease? || c.Schedule? || c.Promote? || c.Reap? || c.Sweep?
    ensures u !in Subjects(s, c)
  {
    forall j: Job | j.url == u
      ensures j !in s.ready && j !in s.processing && j !in s.lease && (j in s.delayed ==> s.delayed[j] >= t)
    {
      HeldIdle(cfg, s, u, t, j);
    }
    if c.Lease? && s.ready != [] {
      assert Last(s.ready) in s.ready;
    } else if c.Schedule? && u in c.urls {
      HeldMarked(cfg, s, u, t);
    }
  }

  lemma HeldStep(cfg: Config, s: State, c: Call, u: Url, t: int)
    requires cfg.Valid() && Exact(cfg, s) && Enabled(cfg, s, c) && Held(cfg, s, u, t) && !Awakens(s, c, u, t)
    ensures Held(cfg, Exec(cfg, s, c), u, t)
  {
    if !Observes(c, t) && (c.Lease? || c.Schedule? || c.Promote? || c.Reap? || c.Sweep?) {
      HeldNotSubject(cfg, s, c, u, t);
    }
    if u !in Subjects(s, c) {
      if c.Lease? { LeaseFrame(cfg, s, c, u); } else { CallFrame(cfg, s, c, u); }
      HeldSame(cfg, s, Exec(cfg, s, c), u, t);
    } else if c.AdmitVideo? {
      HeldAdmitVideo(cfg, s, c, t);
    } else if c.AdmitListing? {
      HeldAdmitListing(cfg, s, c, t);
    } else if c.SeedListing? {
      HeldMarked(cfg, s, u, t);
    } else {
      HeldIdle(cfg, s, u, t, c.job);
      StaleIsNoop(cfg, s, c);
    }
  }

  lemma HeldCall(cfg: Config, tr: Trace, i: nat, u: Url, t: int)
    requires IsTrace(cfg, tr) && i < |tr.calls| && Held(cfg, tr.states[i], u, t)
    requires !Awakens(tr.states[i], tr.calls[i], u, t)
    ensures Held(cfg, tr.states[i + 1], u, t)
  {
    TraceExact(cfg, tr, i);
    HeldStep(cfg, tr.states[i], tr.calls[i], u, t);
  }

  lemma {:induction false} HeldThrough(cfg: Config, tr: Trace, i: nat, m: nat, u: Url, t: int)
    requires IsTrace(cfg, tr) && i <= m <= |tr.calls| && Held(cfg, tr.states[i], u, t)
    requires forall n :: i <= n < m ==> !Awakens(tr.states[n], tr.calls[n], u, t)
    ensures Held(cfg, tr.states[m], u, t)
    decreases m
  {
    if i < m {
      HeldThrough(cfg, tr, i, m - 1, u, t);
      HeldCall(cfg, tr, m - 1, u, t);
    }
  }

  /** A job of u leased after u was held until t: in between some call about u observed a clock >= t. */
  lemma NotLeasedBefore(cfg: Config, tr: Trace, i: nat, m: nat, u: Url, t: int)
    requires IsTrace(cfg, tr) && i <= m < |tr.calls| && Held(cfg, tr.states[i], u, t)
    requires tr.calls[m].Lease? && tr.states[m].ready != [] && Last(tr.states[m].ready).url == u
    ensures exists n :: i <= n < m && Awakens(tr.states[n], tr.calls[n], u, t)
  {
    if forall n :: i <= n < m ==> !Awakens(tr.states[n], tr.calls[n], u, t) {
      HeldThrough(cfg, tr, i, m, u, t);
      TraceExact(cfg, tr, m);
      HeldIdle(cfg, tr.states[m], u, t, Last(tr.states[m].ready));
      assert false;
    }
  }

  // ---- what puts a URL on hold ----

  lemma PostponedHolds(cfg: Config, s: State, j: Job, at: int, t: State)
    requires t == Postponed(s, j, at)
    ensures Held(cfg, t, j.url, at)
  {
    assert Fresh(s, j.url) in t.delayed;
  }

  lemma FailHolds(cfg: Config, s: State, c: Call)
    requires cfg.Valid() && c.Fail? && Answer(cfg, s, c) == Delayed
    ensures Held(cfg, Exec(cfg, s, c), c.job.url, RetryAt(cfg, s, c.job.url, c.kind, c.now))
  {
    FailRun(cfg, s, c);
    PostponedHolds(cfg, Struck(s, c.job, c.kind), c.job, RetryAt(cfg, s, c.job.url, c.kind, c.now),
                   Exec(cfg, s, c));
  }

  lemma ClosedRests(cfg: Config, s: State, j: Job, r: State, t: int)
    requires Exact(cfg, s) && j in s.lease && Released(s, j, r) && !cfg.IsVideo(j.url)
    requires j.url in r.next && r.next[j.url] >= t
    ensures Held(cfg, Closed(r, j), j.url, t)
  {
    assert IsLive(s, j);
    ClosedDropped(s, j, r);
    DroppedLast(s, Closed(r, j), j);
  }

  lemma RescheduledRests(cfg: Config, s: State, j: Job, b: nat, at: int, t: State)
    requires Exact(cfg, s) && j in s.lease && !cfg.IsVideo(j.url) && t == Closed(Rescheduled(s, j, b, at), j)
    ensures Held(cfg, t, j.url, at)
  {
    RescheduledReleased(s, j, b, at);
    ClosedRests(cfg, s, j, Rescheduled(s, j, b, at), at);
  }

  lemma CompleteHolds(cfg: Config, s: State, c: Call)
    requires cfg.Valid() && Exact(cfg, s) && c.CompleteListing? && Enabled(cfg, s, c) && Answer(cfg, s, c) == Ok
    ensures Held(cfg, Exec(cfg, s, c), c.job.url,
                 c.now + Ttl(cfg, c.job.url, Barren(s, c.job.url, c.newChildren)))
  {
    var b, at := CompleteShape(cfg, s, c);
    RescheduledRests(cfg, s, c.job, b, at, Exec(cfg, s, c));
  }

  lemma BuriedRests(cfg: Config, s: State, j: Job, r: State, d: Dead, t: State)
    requires Exact(cfg, s) && j in s.lease && Released(s, j, r) && !cfg.IsVideo(j.url) && DeadOk(cfg, j.url, d)
    requires t == Buried(r, j, d)
    ensures Held(cfg, t, j.url, d.until)
  {
    EntombedReleased(cfg, s, j, r, d);
    ClosedRests(cfg, s, j, Entombed(r, j, d), d.until);
  }

  lemma TerminalShape(cfg: Config, s: State, c: Call) returns (r: State, d: Dead)
    requires cfg.Valid() && c.Terminal? && Enabled(cfg, s, c) && c.job in s.lease
    ensures Exec(cfg, s, c) == Buried(r, c.job, d) && Released(s, c.job, r)
    ensures DeadOk(cfg, c.job.url, d) && (!cfg.IsVideo(c.job.url) ==> d.until == c.now + cfg.quarantine)
  {
    TerminalRun(cfg, s, c);
    UnleasedReleased(s, c.job);
    r := Apply(s, RemLease(c.job));
    d := Dead(c.reason, QuarantineUntil(cfg, c.job.url, c.now));
  }

  /** A listing whose page is gone is not leased before its quarantine ends. */
  lemma TerminalHolds(cfg: Config, s: State, c: Call)
    requires cfg.Valid() && Exact(cfg, s) && c.Terminal? && Enabled(cfg, s, c) && Answer(cfg, s, c) == Ok
    requires !cfg.IsVideo(c.job.url)
    ensures Held(cfg, Exec(cfg, s, c), c.job.url, c.now + cfg.quarantine)
  {
    var r, d := TerminalShape(cfg, s, c);
    BuriedRests(cfg, s, c.job, r, d, Exec(cfg, s, c));
  }

  lemma StrikeoutShape(cfg: Config, s: State, c: Call) returns (r: State, d: Dead)
    requires cfg.Valid() && c.Fail? && cfg.ClockOk(c.now) && c.job in s.lease && Dies(cfg, s, c.job.url, c.kind)
    ensures Exec(cfg, s, c) == Buried(r, c.job, d) && Released(s, c.job, r)
    ensures DeadOk(cfg, c.job.url, d) && (!cfg.IsVideo(c.job.url) ==> d.until == c.now + cfg.quarantine)
  {
    FailRun(cfg, s, c);
    ExhaustedReason();
    StruckReleased(s, c.job, c.kind);
    r := Struck(s, c.job, c.kind);
    d := Dead(EXHAUSTED, QuarantineUntil(cfg, c.job.url, c.now));
  }

  /** Nor is a listing whose strikes ran out. */
  lemma StrikeoutHolds(cfg: Config, s: State, c: Call)
    requires cfg.Valid() && Exact(cfg, s) && c.Fail? && Enabled(cfg, s, c) && Answer(cfg, s, c) == Died
    requires !cfg.IsVideo(c.job.url)
    ensures Held(cfg, Exec(cfg, s, c), c.job.url, c.now + cfg.quarantine)
  {
    var r, d := StrikeoutShape(cfg, s, c);
    BuriedRests(cfg, s, c.job, r, d, Exec(cfg, s, c));
  }

  /** The time until which call c, issued in s, puts the URL of its job on hold. */
  function HoldUntil(cfg: Config, s: State, c: Call): Option<int>
    requires cfg.Valid()
  {
    match c
    case Fail(j, kind, now) =>
      if j !in s.lease then None
      else if !Dies(cfg, s, j.url, kind) then Some(RetryAt(cfg, s, j.url, kind, now))
      else if cfg.IsVideo(j.url) then None else Some(now + cfg.quarantine)
    case CompleteListing(j, n, now) =>
      if j in s.lease then Some(now + Ttl(cfg, j.url, Barren(s, j.url, n))) else None
    case Terminal(j, _, now) =>
      if j in s.lease && !cfg.IsVideo(j.url) then Some(now + cfg.quarantine) else None
    case _ => None
  }

  lemma CallHolds(cfg: Config, s: State, c: Call)
    requires cfg.Valid() && Exact(cfg, s) && Enabled(cfg, s, c) && HoldUntil(cfg, s, c).Some?
    ensures Held(cfg, Exec(cfg, s, c), c.job.url, HoldUntil(cfg, s, c).value)
  {
    match c
    case Fail(j, kind, _) => if Dies(cfg, s, j.url, kind) { StrikeoutHolds(cfg, s, c); } else { FailHolds(cfg, s, c); }
    case CompleteListing(_, _, _) => CompleteHolds(cfg, s, c);
    case Terminal(_, _, _) => TerminalHolds(cfg, s, c);
  }

  /** After a delayed failure, a completed listing or a quarantine, the URL is not leased again until
      some admission, scheduler or promoter call about that very URL has observed a clock that reached the
      stated time. */
  lemma HoldIsLowerBound(cfg: Config, tr: Trace, i: nat, m: nat)
    requires IsTrace(cfg, tr) && i < m < |tr.calls| && HoldUntil(cfg, tr.states[i], tr.calls[i]).Some?
    requires tr.calls[m].Lease? && tr.states[m].ready != []
    requires Last(tr.states[m].ready).url == tr.calls[i].job.url
    ensures var t := HoldUntil(cfg, tr.states[i], tr.calls[i]).value;
            exists n :: i < n < m && Awakens(tr.states[n], tr.calls[n], tr.calls[i].job.url, t)
  {
    TraceExact(cfg, tr, i);
    CallHolds(cfg, tr.states[i], tr.calls[i]);
    NotLeasedBefore(cfg, tr, i + 1, m, tr.calls[i].job.url, HoldUntil(cfg, tr.states[i], tr.calls[i]).value);
  }

  // ---- dead videos ----

  lemma GoneStep(cfg: Config, s: State, c: Call, u: Url)
    requires cfg.Valid() && Exact(cfg, s) && Enabled(cfg, s, c) && cfg.IsVideo(u) && u in s.dead
    ensures u in Exec(cfg, s, c).dead
  {
    DeadNotLive(cfg, s, u);
    if u in Subjects(s, c) && (c.Lease? || c.Promote? || c.Reap? || c.Sweep?) {
      SubjectsLive(cfg, s, c, u);
      assert false;
    }
    if u !in Subjects(s, c) {
      if c.Lease? { LeaseFrame(cfg, s, c, u); } else { CallFrame(cfg, s, c, u); }
    } else if IsResolution(c) {
      StaleWhenNotLive(cfg, s, c);
    }
  }

  lemma GoneCall(cfg: Config, tr: Trace, i: nat, u: Url)
    requires IsTrace(cfg, tr) && i < |tr.calls| && cfg.IsVideo(u) && u in tr.states[i].dead
    ensures u in tr.states[i + 1].dead
  {
    TraceExact(cfg, tr, i);
    GoneStep(cfg, tr.states[i], tr.calls[i], u);
  }

  lemma DeadNotLive(cfg: Config, s: State, u: Url)
    requires Exact(cfg, s) && u in s.dead
    ensures !LiveUrl(s, u)
  {
  }

  /** A dead video has no live job, now or ever again. */
  lemma {:induction false} DeadVideoStaysDead(cfg: Config, tr: Trace, i: nat, m: nat, u: Url)
    requires IsTrace(cfg, tr) && i <= m <= |tr.calls| && cfg.IsVideo(u) && u in tr.states[i].dead
    ensures u in tr.states[m].dead && !LiveUrl(tr.states[m], u)
    decreases m
  {
    if i < m {
      DeadVideoStaysDead(cfg, tr, i, m - 1, u);
      GoneCall(cfg, tr, m - 1, u);
    }
    TraceExact(cfg, tr, m);
    DeadNotLive(cfg, tr.states[m], u);
  }
}
