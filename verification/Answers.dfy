/** What callers are told over whole runs: the jobs that Lease answers, and which admissions are answered New. Calls
    may stop after any write; an answer is given only by a call that runs to its end. */
module Answers {
  import opened Keyspace
  import opened Scripts
  import opened Discipline
  import opened CrashSafety
  import opened CrashRuns
  import opened Laws

  /** Call i runs to its end. */
  ghost predicate Ends(cfg: Config, h: History, i: nat)
    requires IsRun(cfg, h) && i < |h.calls|
  {
    h.cuts[i] >= Length(Script(cfg, h.states[i], h.calls[i]))
  }

  lemma EndsIsExec(cfg: Config, h: History, i: nat)
    requires IsRun(cfg, h) && i < |h.calls| && Ends(cfg, h, i)
    ensures h.states[i + 1] == Exec(cfg, h.states[i], h.calls[i])
    ensures Consistent(cfg, h.states[i]) && Enabled(cfg, h.states[i], h.calls[i])
  {
    WholePrefix(h.states[i], Script(cfg, h.states[i], h.calls[i]), h.cuts[i]);
    RunConsistent(cfg, h, i);
  }

  /** Call i runs to its end and is answered r. */
  ghost predicate AnsweredAt(cfg: Config, h: History, i: nat, r: Reply)
    requires IsRun(cfg, h) && i < |h.calls|
  {
    Ends(cfg, h, i) && Answer(cfg, h.states[i], h.calls[i]) == r
  }

  // ---- leases ----

  /** Call i is a Lease that is answered with j. */
  ghost predicate HandsOut(cfg: Config, h: History, i: nat, j: Job)
    requires IsRun(cfg, h) && i < |h.calls|
  {
    h.calls[i].Lease? && AnsweredAt(cfg, h, i, Leased(j))
  }

  /** The job answered is the one taken: it was ready, is ready no more, and is leased for cfg.leaseTimeout. */
  lemma HandedOut(cfg: Config, h: History, i: nat, j: Job)
    requires IsRun(cfg, h) && i < |h.calls| && HandsOut(cfg, h, i, j)
    ensures TakesAt(h, i) && Taken(h, i) == j
    ensures j in h.states[i].ready && j !in h.states[i + 1].ready && j in h.states[i + 1].processing
    ensures j !in h.states[i].lease && j in h.states[i + 1].lease
    ensures h.states[i + 1].lease[j] == h.calls[i].now + cfg.leaseTimeout
  {
    var s, t, now := h.states[i], h.states[i + 1], h.calls[i].now;
    EndsIsExec(cfg, h, i);
    LeaseLaw(cfg, s, now, t, Leased(j));
    LeasedJob(cfg, s, now, t, j);
  }

  /** The jobs that Lease answers have strictly increasing IDs: none is ever handed out twice. */
  lemma HandedOutInOrder(cfg: Config, h: History, i: nat, m: nat, j: Job, k: Job)
    requires IsRun(cfg, h) && i < m < |h.calls| && HandsOut(cfg, h, i, j) && HandsOut(cfg, h, m, k)
    ensures j.id < k.id
  {
    HandedOut(cfg, h, i, j);
    HandedOut(cfg, h, m, k);
    LeaseOrder(cfg, h, i, m);
  }

  /** The Lease that finds k jobs taken since j had k before it is answered with j. */
  lemma HandedOutInTurn(cfg: Config, h: History, i: nat, m: nat, j: Job, k: nat, x: Job)
    requires IsRun(cfg, h) && i <= m < |h.calls| && Waits(h.states[i], j, k) && Takes(h, i, m) == k
    requires HandsOut(cfg, h, m, x)
    ensures x == j
  {
    HandedOut(cfg, h, m, x);
    FirstInFirstOut(cfg, h, i, m, j, k);
  }

  /** A job with k others before it is taken by one of the calls that take k + 1 jobs. */
  lemma {:induction false} TakenInTime(cfg: Config, h: History, i: nat, m: nat, j: Job, k: nat) returns (n: nat)
    requires IsRun(cfg, h) && i <= m <= |h.calls| && Waits(h.states[i], j, k) && Takes(h, i, m) > k
    ensures i <= n < m && TakesAt(h, n) && Taken(h, n) == j
    decreases m
  {
    if Takes(h, i, m - 1) > k {
      n := TakenInTime(cfg, h, i, m - 1, j, k);
    } else {
      n := m - 1;
      FirstInFirstOut(cfg, h, i, n, j, k);
    }
  }

  /** Whatever is ready is taken by the time as many jobs have been taken as were ready. */
  lemma ReadyIsTaken(cfg: Config, h: History, i: nat, m: nat, j: Job) returns (n: nat)
    requires IsRun(cfg, h) && i <= m <= |h.calls| && j in h.states[i].ready
    requires Takes(h, i, m) >= |h.states[i].ready|
    ensures i <= n < m && TakesAt(h, n) && Taken(h, n) == j
    ensures forall x :: HandsOut(cfg, h, n, x) ==> x == j
  {
    var a :| 0 <= a < |h.states[i].ready| && h.states[i].ready[a] == j;
    n := TakenInTime(cfg, h, i, m, j, |h.states[i].ready| - 1 - a);
    forall x | HandsOut(cfg, h, n, x)
      ensures x == j
    {
      HandedOut(cfg, h, n, x);
    }
  }

  lemma GainedIsReady(s: State, t: State, due: seq<Job>, a: nat)
    requires Gains(s, t, UrlsOf(due)) && a < |due|
    ensures Job(s.jobSeq + 1 + a, due[a].url) in t.ready
  {
    assert NewJobs(s.jobSeq, UrlsOf(due))[|due| - 1 - a] == Job(s.jobSeq + 1 + a, due[a].url);
  }

  lemma PromotedIsReady(cfg: Config, h: History, i: nat, j: Job) returns (f: Job)
    requires IsRun(cfg, h) && i < |h.calls| && h.calls[i].Promote? && Ends(cfg, h, i) && j in h.calls[i].jobs
    ensures j !in h.states[i + 1].delayed && f.url == j.url && f.id > h.states[i].jobSeq
    ensures f in h.states[i + 1].ready
  {
    var s, t, due := h.states[i], h.states[i + 1], h.calls[i].jobs;
    EndsIsExec(cfg, h, i);
    PromoteLaw(cfg, s, h.calls[i].now, due, t, Answer(cfg, s, h.calls[i]));
    f := OneGained(s, t, due, j);
  }

  lemma OneGained(s: State, t: State, due: seq<Job>, j: Job) returns (f: Job)
    requires Gains(s, t, UrlsOf(due)) && j in due
    ensures f.url == j.url && f.id > s.jobSeq && f in t.ready
  {
    var a :| 0 <= a < |due| && due[a] == j;
    f := Job(s.jobSeq + 1 + a, j.url);
    GainedIsReady(s, t, due, a);
  }

  /** Failed work is leased again: once a promotion has found it due, a fresh job of its URL is taken by the time
      as many jobs have been taken as were ready then. */
  lemma FailedIsLeasedAgain(cfg: Config, h: History, i: nat, m: nat, j: Job) returns (f: Job, n: nat)
    requires IsRun(cfg, h) && i < m <= |h.calls| && h.calls[i].Promote? && Ends(cfg, h, i) && j in h.calls[i].jobs
    requires Takes(h, i + 1, m) >= |h.states[i + 1].ready|
    ensures j !in h.states[i + 1].delayed && f.url == j.url && f.id > h.states[i].jobSeq
    ensures i < n < m && TakesAt(h, n) && Taken(h, n) == f
    ensures forall x :: HandsOut(cfg, h, n, x) ==> x == f
  {
    f := PromotedIsReady(cfg, h, i, j);
    n := ReadyIsTaken(cfg, h, i + 1, m, f);
  }

  // ---- admissions of listings ----

  /** Whatever part of whatever script runs, no URL loses its due time. */
  lemma StepKnown(cfg: Config, h: History, i: nat)
    requires IsRun(cfg, h) && i < |h.calls|
    ensures h.states[i].next.Keys <= h.states[i + 1].next.Keys
  {
    var s, c := h.states[i], h.calls[i];
    RunConsistent(cfg, h, i);
    ScriptSafe(cfg, s, c);
    ghost var P := (t: State) => s.next.Keys <= t.next.Keys;
    forall t, w | P(t) && Safe(cfg, s, c, t, w)
      ensures P(Apply(t, w))
    {
      KnownWrite(cfg, s, c, t, w);
    }
    PrefixInduction(cfg, s, c, P, s, Script(cfg, s, c), h.cuts[i]);
  }

  lemma KnownWrite(cfg: Config, base: State, c: Call, s: State, w: Write)
    requires Safe(cfg, base, c, s, w)
    ensures s.next.Keys <= Apply(s, w).next.Keys
  {
  }

  lemma {:induction false} StaysKnown(cfg: Config, h: History, i: nat, m: nat, u: Url)
    requires IsRun(cfg, h) && i <= m <= |h.calls| && u in h.states[i].next
    ensures u in h.states[m].next
    decreases m
  {
    if i < m {
      StaysKnown(cfg, h, i, m - 1, u);
      StepKnown(cfg, h, m - 1);
    }
  }

  /** Call i is an admission of the listing u that is answered r. */
  ghost predicate AdmitsAt(cfg: Config, h: History, i: nat, u: Url, r: Reply)
    requires IsRun(cfg, h) && i < |h.calls|
  {
    h.calls[i].AdmitListing? && h.calls[i].url == u && AnsweredAt(cfg, h, i, r)
  }

  lemma AdmitsAtLaw(cfg: Config, h: History, i: nat, u: Url, r: Reply)
    requires IsRun(cfg, h) && i < |h.calls| && AdmitsAt(cfg, h, i, u, r)
    ensures r == New ==> u !in h.states[i].next
    ensures r == DueRevisit ==> u in h.states[i].next
    ensures r != Suppressed ==> (r == New || r == DueRevisit) && u in h.states[i + 1].next
  {
    EndsIsExec(cfg, h, i);
    AdmitListingLaw(cfg, h.states[i], u, h.calls[i].now, h.states[i + 1], r);
  }

  /** A call that, run to its end, records a due time for u: it seeds, enqueues, completes or quarantines u. */
  predicate Records(cfg: Config, s: State, c: Call, u: Url)
    requires cfg.Valid()
  {
    match c
    case SeedListing(v) => v == u
    case AdmitListing(v, _) => v == u && Answer(cfg, s, c) != Suppressed
    case CompleteListing(j, _, _) => j.url == u && j in s.lease
    case Terminal(j, _, _) => j.url == u && j in s.lease && !cfg.IsVideo(u)
    case Fail(j, _, _) => j.url == u && Answer(cfg, s, c) == Died && !cfg.IsVideo(u)
    case _ => false
  }

  lemma RecordsKnown(cfg: Config, s: State, c: Call, u: Url, t: State)
    requires cfg.Valid() && Enabled(cfg, s, c) && Records(cfg, s, c, u) && t == Exec(cfg, s, c)
    ensures u in t.next
  {
    match c
    case SeedListing(_) => SeedLaw(cfg, s, u, t);
    case AdmitListing(_, now) => AdmitListingLaw(cfg, s, u, now, t, Answer(cfg, s, c));
    case CompleteListing(j, n, now) => var b, full := CompleteLaw(cfg, s, j, n, now, t);
    case Terminal(j, reason, now) => TerminalLaw(cfg, s, j, reason, now, t);
    case Fail(j, kind, now) => DeathLaw(cfg, s, j, kind, now, t);
  }

  lemma RecordedAt(cfg: Config, h: History, i: nat, m: nat, u: Url)
    requires IsRun(cfg, h) && i < m <= |h.calls| && Ends(cfg, h, i) && Records(cfg, h.states[i], h.calls[i], u)
    ensures u in h.states[m].next
  {
    EndsIsExec(cfg, h, i);
    RecordsKnown(cfg, h.states[i], h.calls[i], u, h.states[i + 1]);
    StaysKnown(cfg, h, i + 1, m, u);
  }

  /** New is answered at most once per listing, and only while the frontier has never had a due time for it: not
      after it was seeded, admitted, completed or quarantined. */
  lemma NewOnce(cfg: Config, h: History, m: nat, u: Url)
    requires IsRun(cfg, h) && m < |h.calls| && AdmitsAt(cfg, h, m, u, New)
    ensures forall i: nat :: i <= m ==> u !in h.states[i].next
    ensures forall i: nat :: i < m && Ends(cfg, h, i) ==> !Records(cfg, h.states[i], h.calls[i], u)
    ensures forall i: nat :: i < |h.calls| && AdmitsAt(cfg, h, i, u, New) ==> i == m
  {
    AdmitsAtLaw(cfg, h, m, u, New);
    forall i: nat | i <= m
      ensures u !in h.states[i].next
    {
      if u in h.states[i].next {
        StaysKnown(cfg, h, i, m, u);
      }
    }
    forall i: nat | i < m && Ends(cfg, h, i)
      ensures !Records(cfg, h.states[i], h.calls[i], u)
    {
      if Records(cfg, h.states[i], h.calls[i], u) {
        RecordedAt(cfg, h, i, m, u);
      }
    }
    forall i: nat | i < |h.calls| && AdmitsAt(cfg, h, i, u, New)
      ensures i == m
    {
      if i < m {
        RecordedAt(cfg, h, i, m, u);
      } else if m < i {
        RecordedAt(cfg, h, m, i, u);
        AdmitsAtLaw(cfg, h, i, u, New);
      }
    }
  }

  /** Once the frontier has a due time for a listing, each admission that enqueues it is answered DueRevisit. */
  lemma ThenRevisits(cfg: Config, h: History, i: nat, m: nat, u: Url, r: Reply)
    requires IsRun(cfg, h) && i <= m < |h.calls| && AdmitsAt(cfg, h, m, u, r) && r != Suppressed
    requires u in h.states[i].next || (i < m && Ends(cfg, h, i) && Records(cfg, h.states[i], h.calls[i], u))
    ensures r == DueRevisit
  {
    AdmitsAtLaw(cfg, h, m, u, r);
    if u in h.states[i].next {
      StaysKnown(cfg, h, i, m, u);
    } else {
      RecordedAt(cfg, h, i, m, u);
    }
  }
}
