/** What each call of the frontier promises its caller, written out on the keyspace and the configuration. */
module Laws {
  import opened Keyspace
  import opened Scripts
  import opened Discipline
  import opened Effects
  import opened Exactness
  import opened Recovery
  import opened Runs

  // ---- jobs that one call starts ----

  /** The jobs n + 1, ..., n + |us| of the URLs us, the last one leftmost. */
  function NewJobs(n: nat, us: seq<Url>): seq<Job> {
    seq(|us|, k requires 0 <= k < |us| => Job(n + |us| - k, us[|us| - 1 - k]))
  }

  /** From s to t ready has gained one new job of each of the URLs us, in their order. */
  ghost predicate Gains(s: State, t: State, us: seq<Url>) {
    t.jobSeq == s.jobSeq + |us| && t.ready == NewJobs(s.jobSeq, us) + s.ready
  }

  lemma GainsNone(s: State, t: State)
    requires t.jobSeq == s.jobSeq && t.ready == s.ready
    ensures Gains(s, t, [])
  {
  }

  lemma GainsFirst(s: State, r: State, t: State, u: Url, us: seq<Url>)
    requires r.jobSeq == s.jobSeq + 1 && r.ready == [Job(s.jobSeq + 1, u)] + s.ready && Gains(r, t, us)
    ensures Gains(s, t, [u] + us)
  {
    assert NewJobs(s.jobSeq, [u] + us) == NewJobs(r.jobSeq, us) + [Job(s.jobSeq + 1, u)];
    assert t.ready == NewJobs(s.jobSeq, [u] + us) + s.ready;
  }

  /** q is p without the jobs js, in the same order. */
  ghost predicate Loses(p: seq<Job>, q: seq<Job>, js: seq<Job>) {
    Descending(q) && forall j :: j in q <==> j in p && j !in js
  }

  lemma LosesFirst(p: seq<Job>, q: seq<Job>, js: seq<Job>)
    requires Descending(p) && js != [] && Loses(Remove(p, js[0]), q, js[1..])
    ensures Loses(p, q, js)
  {
    RemoveOnly(p, js[0]);
    RemoveDescending(p, js[0]);
    assert js == [js[0]] + js[1..];
  }

  // ---- leases ----

  /** The answer is the rightmost ready job; it moves to processing and is leased for cfg.leaseTimeout. */
  lemma LeaseLaw(cfg: Config, s: State, now: int, t: State, r: Reply)
    requires cfg.Valid() && t == Exec(cfg, s, Lease(now)) && r == Answer(cfg, s, Lease(now))
    ensures r == Nil <==> s.ready == []
    ensures s.ready == [] ==> t == s
    ensures s.ready != [] ==>
      && r.Leased? && s.ready == t.ready + [r.job] && t.processing == [r.job] + s.processing
      && t == s.(ready := t.ready, processing := t.processing, lease := s.lease[r.job := now + cfg.leaseTimeout])
  {
    LeaseRun(cfg, s, Lease(now));
  }

  /** The job answered is the oldest one ready, it waits no more, and nobody held it. */
  lemma LeasedJob(cfg: Config, s: State, now: int, t: State, j: Job)
    requires cfg.Valid() && Consistent(cfg, s) && t == Exec(cfg, s, Lease(now))
    requires Answer(cfg, s, Lease(now)) == Leased(j)
    ensures j in s.ready && j !in t.ready && j in t.processing && (forall i :: i in s.ready ==> j.id <= i.id)
    ensures j !in s.lease && j in t.lease && t.lease[j] == now + cfg.leaseTimeout
    ensures forall i :: i != j ==> (i in t.lease <==> i in s.lease) && (i in s.lease ==> t.lease[i] == s.lease[i])
  {
    LeaseLaw(cfg, s, now, t, Leased(j));
    assert s.ready[|s.ready| - 1] == j;
    assert forall i :: i in t.ready ==> i in s.ready;
  }

  // ---- admissions ----

  lemma AdmitVideoLaw(cfg: Config, s: State, u: Url, now: int, added: bool, t: State, r: Reply)
    requires cfg.Valid()
    requires t == Exec(cfg, s, AdmitVideo(u, now, added)) && r == Answer(cfg, s, AdmitVideo(u, now, added))
    ensures var blocked := u in s.dead && (s.dead[u].until == 0 || s.dead[u].until > now);
            && r == (if blocked || !added then Suppressed else New)
            && (blocked ==> t == s)
            && (!blocked ==>
                  t == s.(jobSeq := s.jobSeq + 1, dead := s.dead - {u}, claimed := s.claimed + {u},
                          ready := if added then [Job(s.jobSeq + 1, u)] + s.ready else s.ready))
  {
    AdmitVideoEffect(cfg, s, AdmitVideo(u, now, added));
  }

  /** New answers a listing without a schedule, DueRevisit one whose due time has come; either way it gains one
      job and is PENDING. Suppressed answers any other, which gains none. */
  lemma AdmitListingLaw(cfg: Config, s: State, u: Url, now: int, t: State, r: Reply)
    requires cfg.Valid() && t == Exec(cfg, s, AdmitListing(u, now)) && r == Answer(cfg, s, AdmitListing(u, now))
    ensures var blocked := u in s.dead && (s.dead[u].until == 0 || s.dead[u].until > now);
            && (r == New <==> !blocked && u !in s.next)
            && (r == DueRevisit <==> !blocked && u in s.next && s.next[u] <= now)
            && (r == Suppressed <==> blocked || (u in s.next && s.next[u] > now))
            && (r == Suppressed ==> t == if blocked then s else s.(dead := s.dead - {u}))
    ensures r != Suppressed ==>
              t == s.(jobSeq := s.jobSeq + 1, ready := [Job(s.jobSeq + 1, u)] + s.ready,
                      dead := s.dead - {u}, next := s.next[u := 253402300799])
  {
    AdmitListingRun(cfg, s, AdmitListing(u, now));
  }

  lemma OneMore(q: seq<Job>, j: Job, u: Url)
    requires j !in q
    ensures InList([j] + q, u) == if j.url == u then InList(q, u) + {j} else InList(q, u)
    ensures j !in InList(q, u)
  {
  }

  /** An admission is answered Suppressed exactly when ready does not gain one job of the URL. */
  lemma AdmittedCounts(cfg: Config, s: State, u: Url, now: int, t: State, r: Reply)
    requires cfg.Valid() && Consistent(cfg, s)
    requires t == Exec(cfg, s, AdmitListing(u, now)) && r == Answer(cfg, s, AdmitListing(u, now))
    ensures |InList(t.ready, u)| == |InList(s.ready, u)| + if r == Suppressed then 0 else 1
  {
    AdmitListingLaw(cfg, s, u, now, t, r);
    var j := Job(s.jobSeq + 1, u);
    if r != Suppressed {
      assert IsLive(s, j) ==> j.id <= s.jobSeq;
      assert j !in s.ready;
      OneMore(s.ready, j, u);
    }
  }

  lemma SeedLaw(cfg: Config, s: State, u: Url, t: State)
    requires cfg.Valid() && t == Exec(cfg, s, SeedListing(u))
    ensures t == if u in s.next then s else s.(next := s.next[u := 0])
  {
    if u !in s.next {
      Run1(s, SetNext(u, 0));
    }
  }

  /** A seed that the frontier did not know is due at once, and the next admission of it enqueues it. */
  lemma SeededIsDue(cfg: Config, s: State, u: Url, now: int, t: State)
    requires cfg.Valid() && u !in s.next && t == Exec(cfg, s, SeedListing(u)) && 0 <= now
    ensures u in DueListings(t, now)
    ensures u !in s.dead ==> Answer(cfg, t, AdmitListing(u, now)) == DueRevisit
  {
    SeedLaw(cfg, s, u, t);
    AdmitListingLaw(cfg, t, u, now, Exec(cfg, t, AdmitListing(u, now)), Answer(cfg, t, AdmitListing(u, now)));
  }

  // ---- the scheduler ----

  /** Those of the due listings that no dead entry blocks. */
  function Unblocked(dead: map<Url, Dead>, due: seq<Url>, now: int): seq<Url> {
    if due == [] then []
    else (if due[0] in dead && (dead[due[0]].until == 0 || dead[due[0]].until > now) then [] else [due[0]])
         + Unblocked(dead, due[1..], now)
  }

  lemma {:induction false} UnblockedSame(d: map<Url, Dead>, e: map<Url, Dead>, due: seq<Url>, now: int)
    requires forall u :: u in due ==> (u in d <==> u in e) && (u in d ==> d[u] == e[u])
    ensures Unblocked(d, due, now) == Unblocked(e, due, now)
  {
    if due != [] {
      assert due[0] in due;
      UnblockedSame(d, e, due[1..], now);
    }
  }

  lemma {:induction false} UnblockedAre(d: map<Url, Dead>, due: seq<Url>, now: int)
    ensures forall u :: u in Unblocked(d, due, now)
                    <==> u in due && !(u in d && (d[u].until == 0 || d[u].until > now))
  {
    if due != [] {
      UnblockedAre(d, due[1..], now);
      assert due == [due[0]] + due[1..];
    }
  }

  /** The due time the scheduler leaves a due listing with: dead for good none, in quarantine its end, else PENDING. */
  predicate Rescored(dead: map<Url, Dead>, u: Url, now: int, next: map<Url, int>) {
    if u in dead && dead[u].until == 0 then u !in next
    else u in next && next[u] == if u in dead && dead[u].until > now then dead[u].until else 253402300799
  }

  ghost predicate SameScore(m: map<Url, int>, n: map<Url, int>, u: Url) {
    (u in n <==> u in m) && (u in m ==> n[u] == m[u])
  }

  /** The listings due are rescored, and no other due time changes. */
  ghost predicate Rescores(s: State, due: seq<Url>, now: int, t: State) {
    && (forall u :: u in due ==> Rescored(s.dead, u, now, t.next))
    && (forall u :: u !in due ==> SameScore(s.next, t.next, u))
  }

  /** What the scheduler does for the listings due. */
  ghost predicate Schedules(s: State, due: seq<Url>, now: int, t: State) {
    && Gains(s, t, Unblocked(s.dead, due, now))
    && Rescores(s, due, now, t)
    && t.dead == s.dead - Elements(Unblocked(s.dead, due, now))
    && t == s.(jobSeq := t.jobSeq, ready := t.ready, next := t.next, dead := t.dead)
  }

  lemma SchedulesNone(s: State, now: int)
    ensures Schedules(s, [], now, s)
  {
    assert s.dead - {} == s.dead;
  }

  lemma RescoresFirst(s: State, u: Url, rest: seq<Url>, now: int, r: State, t: State)
    requires u !in rest && Rescores(r, rest, now, t) && Rescored(s.dead, u, now, r.next)
    requires forall v :: v != u ==> SameScore(s.next, r.next, v)
    requires forall v :: v in rest ==> (v in r.dead <==> v in s.dead) && (v in s.dead ==> r.dead[v] == s.dead[v])
    ensures Rescores(s, [u] + rest, now, t)
  {
    forall v | v in rest
      ensures Rescored(s.dead, v, now, t.next)
    {
      assert Rescored(r.dead, v, now, t.next);
    }
    assert SameScore(r.next, t.next, u);
    forall v | v !in [u] + rest
      ensures SameScore(s.next, t.next, v)
    {
      assert v !in rest && SameScore(s.next, r.next, v) && SameScore(r.next, t.next, v);
    }
  }

  lemma BlockedFirst(s: State, u: Url, rest: seq<Url>, now: int, r: State, t: State)
    requires u in s.dead && s.dead[u].Blocks(now) && u !in rest
    requires r == s.(next := if s.dead[u].until == 0 then s.next - {u} else s.next[u := s.dead[u].until])
    requires Schedules(r, rest, now, t)
    ensures Schedules(s, [u] + rest, now, t)
    ensures Unblocked(s.dead, [u] + rest, now) == Unblocked(r.dead, rest, now)
  {
    RescoresFirst(s, u, rest, now, r, t);
  }

  lemma AdmittedFirst(s: State, u: Url, rest: seq<Url>, now: int, r: State, t: State)
    requires !(u in s.dead && s.dead[u].Blocks(now)) && u !in rest && r == Scheduled(s, u)
    requires Schedules(r, rest, now, t)
    ensures Schedules(s, [u] + rest, now, t)
    ensures Unblocked(s.dead, [u] + rest, now) == [u] + Unblocked(r.dead, rest, now)
  {
    var us := Unblocked(r.dead, rest, now);
    RescoresFirst(s, u, rest, now, r, t);
    UnblockedSame(s.dead, r.dead, rest, now);
    GainsFirst(s, r, t, u, us);
    assert Elements([u] + us) == {u} + Elements(us);
  }

  lemma ScheduledOneIs(s: State, u: Url, now: int, r: State)
    requires r == ScheduledOne(s, u, now)
    ensures if u in s.dead && s.dead[u].Blocks(now)
            then r == s.(next := if s.dead[u].until == 0 then s.next - {u} else s.next[u := s.dead[u].until])
            else r == Scheduled(s, u)
  {
  }

  lemma {:induction false} ScheduleAll(s: State, due: seq<Url>, now: int, t: State)
    requires Distinct(due) && t == Run(s, ScheduleScript(s, due, now))
    ensures Schedules(s, due, now, t) && ScheduleCount(s, due, now) == |Unblocked(s.dead, due, now)|
    decreases |due|
  {
    if due == [] {
      SchedulesNone(s, now);
    } else {
      var r := ScheduledOne(s, due[0], now);
      ScheduleOneRun(s, due, now);
      ScheduleAll(r, due[1..], now, t);
      ScheduledOneIs(s, due[0], now, r);
      if due[0] in s.dead && s.dead[due[0]].Blocks(now) {
        BlockedFirst(s, due[0], due[1..], now, r, t);
      } else {
        AdmittedFirst(s, due[0], due[1..], now, r, t);
      }
      assert due == [due[0]] + due[1..];
    }
  }

  /** One page of the scheduler. Every due listing that no dead entry blocks gains a job, is PENDING and loses its
      dead entry; one in quarantine is put off to its end; one that is dead for good leaves the schedule. */
  lemma ScheduleLaw(cfg: Config, s: State, now: int, due: seq<Url>, t: State, r: Reply)
    requires cfg.Valid() && Enabled(cfg, s, Schedule(now, due))
    requires t == Exec(cfg, s, Schedule(now, due)) && r == Answer(cfg, s, Schedule(now, due))
    ensures Schedules(s, due, now, t) && r == Count(|Unblocked(s.dead, due, now)|)
    ensures forall u :: u in Unblocked(s.dead, due, now)
                    <==> u in due && !(u in s.dead && (s.dead[u].until == 0 || s.dead[u].until > now))
  {
    ScheduleAll(s, due, now, t);
    UnblockedAre(s.dead, due, now);
  }

  // ---- resolutions ----

  /** The lease, the processing entry and both failure counters go, and nothing else changes. */
  lemma AckLaw(cfg: Config, s: State, j: Job, t: State)
    requires cfg.Valid() && t == Exec(cfg, s, Ack(j)) && j in s.lease
    ensures t == s.(lease := s.lease - {j}, processing := Remove(s.processing, j),
                    attempts := s.attempts - {j.url}, strikes := s.strikes - {j.url})
  {
    AckRun(cfg, s, Ack(j));
  }

  /** The job gives way to a fresh one of its URL in ready; the counters stay. */
  lemma NackLaw(cfg: Config, s: State, j: Job, t: State)
    requires cfg.Valid() && t == Exec(cfg, s, Nack(j)) && j in s.lease
    ensures t == s.(jobSeq := s.jobSeq + 1, ready := [Job(s.jobSeq + 1, j.url)] + s.ready,
                    lease := s.lease - {j}, processing := Remove(s.processing, j))
  {
    NackRun(cfg, s, Nack(j));
  }

  lemma TtlIs(cfg: Config, u: Url, b: nat)
    ensures var full := (if cfg.classify(u) == Seed then cfg.seedTtl else cfg.listingBaseTtl) * Pow2(b);
            Ttl(cfg, u, b) == if full <= cfg.listingMaxTtl then full else cfg.listingMaxTtl
  {
    DoubledIsPower(BaseTtl(cfg, u), b);
  }

  /** A completion: barren is 0 after New children and one more otherwise; the listing is next due after the base
      interval of its class doubled once per barren visit, or after cfg.listingMaxTtl if that is sooner. */
  lemma CompleteLaw(cfg: Config, s: State, j: Job, n: nat, now: int, t: State) returns (b: nat, full: int)
    requires cfg.Valid() && t == Exec(cfg, s, CompleteListing(j, n, now)) && j in s.lease
    ensures b == if n > 0 then 0 else if j.url in s.barren then s.barren[j.url] + 1 else 1
    ensures full == (if cfg.classify(j.url) == Seed then cfg.seedTtl else cfg.listingBaseTtl) * Pow2(b)
    ensures t == s.(lease := s.lease - {j}, processing := Remove(s.processing, j),
                    attempts := s.attempts - {j.url}, strikes := s.strikes - {j.url},
                    barren := s.barren[j.url := b], dead := s.dead - {j.url},
                    next := s.next[j.url := now + if full <= cfg.listingMaxTtl then full else cfg.listingMaxTtl])
  {
    var at;
    b, at := CompleteShape(cfg, s, CompleteListing(j, n, now));
    full := (if cfg.classify(j.url) == Seed then cfg.seedTtl else cfg.listingBaseTtl) * Pow2(b);
    TtlIs(cfg, j.url, b);
    RescheduledClosed(s, j, b, at, t);
  }

  /** A resolution without the lease is answered STALE and changes nothing; one that has it is not. */
  lemma StaleLaw(cfg: Config, s: State, c: Call)
    requires cfg.Valid() && IsResolution(c)
    ensures Answer(cfg, s, c) == Stale <==> c.job !in s.lease
    ensures c.job !in s.lease ==> Exec(cfg, s, c) == s
    ensures c.job in s.lease && !c.Fail? ==> Answer(cfg, s, c) == Ok
  {
  }

  lemma RescheduledClosed(s: State, j: Job, b: nat, at: int, t: State)
    requires t == Closed(Rescheduled(s, j, b, at), j)
    ensures t == s.(lease := s.lease - {j}, processing := Remove(s.processing, j),
                    attempts := s.attempts - {j.url}, strikes := s.strikes - {j.url},
                    barren := s.barren[j.url := b], dead := s.dead - {j.url}, next := s.next[j.url := at])
  {
  }

  /** The end of a quarantine that starts now: none, hence 0, for a video. */
  function QuarantineEnd(cfg: Config, u: Url, now: int): int {
    match cfg.classify(u)
    case Video => 0
    case Listing => now + cfg.quarantine
    case Seed => now + cfg.quarantine
  }

  /** The URL is dead with this reason, and a listing is next due when its quarantine ends. */
  lemma TerminalLaw(cfg: Config, s: State, j: Job, reason: string, now: int, t: State)
    requires cfg.Valid() && t == Exec(cfg, s, Terminal(j, reason, now)) && j in s.lease
    ensures var until := QuarantineEnd(cfg, j.url, now);
            t == s.(lease := s.lease - {j}, processing := Remove(s.processing, j),
                    attempts := s.attempts - {j.url}, strikes := s.strikes - {j.url},
                    dead := s.dead[j.url := Dead(reason, until)],
                    next := if until > 0 then s.next[j.url := until] else s.next)
  {
    TerminalRun(cfg, s, Terminal(j, reason, now));
  }

  /** The entry of a ladder for the n-th attempt, the last one from there on. */
  function Rung(ladder: seq<int>, n: nat): int
    requires ladder != [] && n >= 1
  {
    if n <= |ladder| then ladder[n - 1] else ladder[|ladder| - 1]
  }

  /** Only the last strike kills: a strikeable failure of a leased job whose URL has all others already. */
  lemma DiedIff(cfg: Config, s: State, j: Job, kind: FailClass, now: int)
    requires cfg.Valid()
    ensures var r := Answer(cfg, s, Fail(j, kind, now));
            && (r == Died <==> && j in s.lease && kind == Strikeable
                               && (if j.url in s.strikes then s.strikes[j.url] + 1 else 1) >= cfg.maxStrikes)
            && (r == Stale <==> j !in s.lease) && (r == Stale || r == Died || r == Delayed)
  {
  }

  /** The URL is dead, and a listing is next due when its quarantine ends; the counters go. */
  lemma DeathLaw(cfg: Config, s: State, j: Job, kind: FailClass, now: int, t: State)
    requires cfg.Valid() && t == Exec(cfg, s, Fail(j, kind, now)) && Answer(cfg, s, Fail(j, kind, now)) == Died
    ensures var until := QuarantineEnd(cfg, j.url, now);
            t == s.(lease := s.lease - {j}, processing := Remove(s.processing, j),
                    attempts := s.attempts - {j.url}, strikes := s.strikes - {j.url},
                    dead := s.dead[j.url := Dead("strikes_exhausted", until)],
                    next := if until > 0 then s.next[j.url := until] else s.next)
  {
    FailRun(cfg, s, Fail(j, kind, now));
    StruckBuried(s, j, kind, Dead("strikes_exhausted", QuarantineEnd(cfg, j.url, now)), t);
  }

  lemma StruckBuried(s: State, j: Job, kind: FailClass, d: Dead, t: State)
    requires t == Buried(Struck(s, j, kind), j, d)
    ensures t == s.(lease := s.lease - {j}, processing := Remove(s.processing, j),
                    attempts := s.attempts - {j.url}, strikes := s.strikes - {j.url}, dead := s.dead[j.url := d],
                    next := if d.until > 0 then s.next[j.url := d.until] else s.next)
  {
    assert s.attempts[j.url := Get(s.attempts, j.url) + 1] - {j.url} == s.attempts - {j.url};
    assert s.strikes[j.url := Strikes(s, j.url, kind)] - {j.url} == s.strikes - {j.url};
  }

  /** Any other failure counts an attempt, and a strike if it is strikeable; a fresh job waits in delayed for as long
      as the ladder of the kind of failure says for this attempt. */
  lemma DelayLaw(cfg: Config, s: State, j: Job, kind: FailClass, now: int, t: State)
    returns (n: nat, m: nat, wait: int)
    requires cfg.Valid() && t == Exec(cfg, s, Fail(j, kind, now)) && Answer(cfg, s, Fail(j, kind, now)) == Delayed
    ensures n == (if j.url in s.attempts then s.attempts[j.url] + 1 else 1)
    ensures m == (if j.url in s.strikes then s.strikes[j.url] + 1 else 1)
    ensures wait == if kind == Strikeable then Rung(cfg.strikeBackoff, n) else Rung(cfg.rateLimitBackoff, n)
    ensures t == s.(jobSeq := s.jobSeq + 1, lease := s.lease - {j}, processing := Remove(s.processing, j),
                    attempts := s.attempts[j.url := n],
                    strikes := if kind == Strikeable then s.strikes[j.url := m] else s.strikes,
                    delayed := s.delayed[Job(s.jobSeq + 1, j.url) := now + wait])
  {
    n, m := Get(s.attempts, j.url) + 1, Get(s.strikes, j.url) + 1;
    wait := if kind == Strikeable then Rung(cfg.strikeBackoff, n) else Rung(cfg.rateLimitBackoff, n);
    FailRun(cfg, s, Fail(j, kind, now));
    RetryIs(cfg, s, j.url, kind, now, n);
    StruckPostponed(s, j, kind, n, m, now + wait, t);
  }

  lemma RetryIs(cfg: Config, s: State, u: Url, kind: FailClass, now: int, n: nat)
    requires cfg.Valid() && n == Get(s.attempts, u) + 1
    ensures RetryAt(cfg, s, u, kind, now)
            == now + if kind == Strikeable then Rung(cfg.strikeBackoff, n) else Rung(cfg.rateLimitBackoff, n)
  {
  }

  lemma StruckPostponed(s: State, j: Job, kind: FailClass, n: nat, m: nat, at: int, t: State)
    requires n == Get(s.attempts, j.url) + 1 && m == Get(s.strikes, j.url) + 1
    requires t == Postponed(Struck(s, j, kind), j, at)
    ensures t == s.(jobSeq := s.jobSeq + 1, lease := s.lease - {j}, processing := Remove(s.processing, j),
                    attempts := s.attempts[j.url := n],
                    strikes := if kind == Strikeable then s.strikes[j.url := m] else s.strikes,
                    delayed := s.delayed[Job(s.jobSeq + 1, j.url) := at])
  {
    StruckIs(s, j, kind, n, m, Struck(s, j, kind));
    PostponedIs(s, j, s.attempts[j.url := n], if kind == Strikeable then s.strikes[j.url := m] else s.strikes, at,
                Struck(s, j, kind), t);
  }

  lemma PostponedIs(s: State, j: Job, a: map<Url, nat>, b: map<Url, nat>, at: int, r: State, t: State)
    requires r == s.(lease := s.lease - {j}, attempts := a, strikes := b) && t == Postponed(r, j, at)
    ensures t == s.(jobSeq := s.jobSeq + 1, lease := s.lease - {j}, processing := Remove(s.processing, j),
                    attempts := a, strikes := b, delayed := s.delayed[Job(s.jobSeq + 1, j.url) := at])
  {
  }

  lemma StruckIs(s: State, j: Job, kind: FailClass, n: nat, m: nat, r: State)
    requires n == Get(s.attempts, j.url) + 1 && m == Get(s.strikes, j.url) + 1 && r == Struck(s, j, kind)
    ensures r == s.(lease := s.lease - {j}, attempts := s.attempts[j.url := n],
                    strikes := if kind == Strikeable then s.strikes[j.url := m] else s.strikes)
  {
    if kind == Strikeable {
      assert Strikes(s, j.url, kind) == m;
    }
  }

  // ---- promoter, reaper, sweeper ----

  ghost predicate Promotes(s: State, due: seq<Job>, t: State) {
    && Gains(s, t, UrlsOf(due)) && t.delayed == s.delayed - Elements(due)
    && t == s.(jobSeq := t.jobSeq, ready := t.ready, delayed := t.delayed)
  }

  lemma PromotesNone(s: State)
    ensures Promotes(s, [], s)
  {
    assert s.delayed - {} == s.delayed;
  }

  lemma PromotesFirst(s: State, j: Job, due: seq<Job>, r: State, t: State)
    requires r == s.(jobSeq := s.jobSeq + 1, ready := [Job(s.jobSeq + 1, j.url)] + s.ready, delayed := s.delayed - {j})
    requires Promotes(r, due, t)
    ensures Promotes(s, [j] + due, t)
  {
    GainsFirst(s, r, t, j.url, UrlsOf(due));
    assert UrlsOf([j] + due) == [j.url] + UrlsOf(due);
    assert Elements([j] + due) == {j} + Elements(due);
  }

  lemma {:induction false} PromoteAll(s: State, due: seq<Job>, t: State)
    requires t == Run(s, PromoteScript(s, due))
    ensures Promotes(s, due, t)
    decreases |due|
  {
    if due == [] {
      PromotesNone(s);
    } else {
      PromoteRun(s, due);
      PromoteAll(Promoted(s, due[0]), due[1..], t);
      PromotesFirst(s, due[0], due[1..], Promoted(s, due[0]), t);
      assert due == [due[0]] + due[1..];
    }
  }

  /** Each due job gives way to a fresh one of its URL in ready; the other delayed jobs keep their times, and nothing
      else changes. */
  lemma PromoteLaw(cfg: Config, s: State, now: int, due: seq<Job>, t: State, r: Reply)
    requires cfg.Valid() && t == Exec(cfg, s, Promote(now, due)) && r == Answer(cfg, s, Promote(now, due))
    ensures Promotes(s, due, t) && r == Count(|due|)
    ensures Enabled(cfg, s, Promote(now, due)) ==> IsRange(s.delayed, now, 100, due)
  {
    PromoteAll(s, due, t);
  }

  ghost predicate Reaps(s: State, expired: seq<Job>, t: State) {
    && Gains(s, t, UrlsOf(expired)) && t.lease == s.lease - Elements(expired)
    && Loses(s.processing, t.processing, expired)
    && t == s.(jobSeq := t.jobSeq, ready := t.ready, lease := t.lease, processing := t.processing)
  }

  lemma ReapsFirst(s: State, j: Job, expired: seq<Job>, r: State, t: State)
    requires Descending(s.processing) && r == Reaped(s, j) && Reaps(r, expired, t)
    ensures Reaps(s, [j] + expired, t)
  {
    GainsFirst(s, r, t, j.url, UrlsOf(expired));
    LosesFirst(s.processing, t.processing, [j] + expired);
    assert UrlsOf([j] + expired) == [j.url] + UrlsOf(expired);
    assert Elements([j] + expired) == {j} + Elements(expired);
  }

  lemma {:induction false} ReapAll(s: State, expired: seq<Job>, t: State)
    requires Descending(s.processing) && AllClaimable(s, expired) && t == Run(s, ReapScript(s, expired))
    ensures Reaps(s, expired, t) && ReapCount(s, expired) == |expired|
    decreases |expired|
  {
    if expired == [] {
      assert s.lease - {} == s.lease;
    } else {
      var j := expired[0];
      assert j in expired;
      ReapRun(s, expired);
      RemoveDescending(s.processing, j);
      ReapAll(Reaped(s, j), expired[1..], t);
      ReapsFirst(s, j, expired[1..], Reaped(s, j), t);
      assert expired == [j] + expired[1..];
    }
  }

  /** Each expired lease goes, and its job gives way to a fresh one of its URL in ready. */
  lemma ReapLaw(cfg: Config, s: State, now: int, expired: seq<Job>, t: State, r: Reply)
    requires cfg.Valid() && Consistent(cfg, s) && Enabled(cfg, s, Reap(now, expired))
    requires t == Exec(cfg, s, Reap(now, expired)) && r == Answer(cfg, s, Reap(now, expired))
    ensures Reaps(s, expired, t) && r == Count(|expired|) && IsRange(s.lease, now, 100, expired)
  {
    ReapAll(s, expired, t);
  }

  /** Those of the processing entries that hold no lease. */
  function Orphans(lease: map<Job, int>, items: seq<Job>): seq<Job> {
    if items == [] then [] else (if items[0] in lease then [] else [items[0]]) + Orphans(lease, items[1..])
  }

  lemma {:induction false} OrphansAre(lease: map<Job, int>, items: seq<Job>)
    ensures forall j :: j in Orphans(lease, items) <==> j in items && j !in lease
  {
    if items != [] {
      OrphansAre(lease, items[1..]);
      assert items == [items[0]] + items[1..];
    }
  }

  lemma OrphansFirst(lease: map<Job, int>, items: seq<Job>)
    requires items != []
    ensures var rest := Orphans(lease, items[1..]);
            Orphans(lease, items) == if items[0] in lease then rest else [items[0]] + rest
  {
  }

  ghost predicate Sweeps(s: State, orphans: seq<Job>, t: State) {
    && Gains(s, t, UrlsOf(orphans)) && Loses(s.processing, t.processing, orphans)
    && t == s.(jobSeq := t.jobSeq, ready := t.ready, processing := t.processing)
  }

  lemma SweepsFirst(s: State, j: Job, orphans: seq<Job>, r: State, t: State)
    requires Descending(s.processing) && r == Swept(s, j) && Sweeps(r, orphans, t)
    ensures Sweeps(s, [j] + orphans, t)
  {
    GainsFirst(s, r, t, j.url, UrlsOf(orphans));
    LosesFirst(s.processing, t.processing, [j] + orphans);
    assert UrlsOf([j] + orphans) == [j.url] + UrlsOf(orphans);
  }

  lemma {:induction false} SweepAll(s: State, items: seq<Job>, t: State)
    requires Descending(s.processing) && t == Run(s, SweepScript(s, items))
    ensures Sweeps(s, Orphans(s.lease, items), t)
    decreases |items|
  {
    if items == [] {
      assert Sweeps(s, [], s);
    } else {
      var j := items[0];
      OrphansFirst(s.lease, items);
      SweepOneRun(s, items);
      if j in s.lease {
        SweepAll(s, items[1..], t);
      } else {
        RemoveDescending(s.processing, j);
        SweepAll(Swept(s, j), items[1..], t);
        SweepsFirst(s, j, Orphans(s.lease, items[1..]), Swept(s, j), t);
      }
    }
  }

  lemma {:induction false} SweepCounts(s: State, items: seq<Job>)
    ensures SweepCount(s, items) == |Orphans(s.lease, items)|
    decreases |items|
  {
    if items != [] {
      SweepCounts(if items[0] in s.lease then s else Swept(s, items[0]), items[1..]);
    }
  }

  /** Each of the 100 oldest processing entries that holds no lease gives way to a fresh job of its URL in ready. */
  lemma SweepLaw(cfg: Config, s: State, t: State, r: Reply)
    requires cfg.Valid() && Consistent(cfg, s) && t == Exec(cfg, s, Sweep) && r == Answer(cfg, s, Sweep)
    ensures var oldest := if |s.processing| <= 100 then s.processing else s.processing[|s.processing| - 100..];
            && Sweeps(s, Orphans(s.lease, oldest), t) && r == Count(|Orphans(s.lease, oldest)|)
            && forall j :: j in Orphans(s.lease, oldest) <==> j in oldest && j !in s.lease
  {
    var items := if |s.processing| <= 100 then s.processing else s.processing[|s.processing| - 100..];
    SweepExec(cfg, s, items);
    SweepOrphans(s, items, t);
  }

  lemma SweepOrphans(s: State, items: seq<Job>, t: State)
    requires Descending(s.processing) && t == Run(s, SweepScript(s, items))
    ensures Sweeps(s, Orphans(s.lease, items), t) && SweepCount(s, items) == |Orphans(s.lease, items)|
    ensures forall j :: j in Orphans(s.lease, items) <==> j in items && j !in s.lease
  {
    SweepAll(s, items, t);
    SweepCounts(s, items);
    OrphansAre(s.lease, items);
  }

  // ---- promotion converges ----

  /** The delayed jobs whose time has come. */
  function DueJobs(s: State, now: int): set<Job> {
    set j | j in s.delayed && s.delayed[j] <= now
  }

  /** t follows s by one tick of the promoter at this clock. */
  ghost predicate PromoterTick(cfg: Config, s: State, now: int, t: State)
    requires cfg.Valid()
  {
    exists due :: Enabled(cfg, s, Promote(now, due)) && t == Exec(cfg, s, Promote(now, due))
  }

  /** One promotion: per URL, ready gains what delayed loses, namely the due jobs of the range. */
  lemma PromoteCounts(cfg: Config, s: State, now: int, due: seq<Job>, t: State, u: Url)
    requires cfg.Valid() && Consistent(cfg, s) && Enabled(cfg, s, Promote(now, due))
    requires t == Exec(cfg, s, Promote(now, due))
    ensures |InList(t.ready, u)| == |InList(s.ready, u)| + |InList(due, u)|
    ensures |InDelayed(t, u)| == |InDelayed(s, u)| - |InList(due, u)|
  {
    PromoteLaw(cfg, s, now, due, t, Answer(cfg, s, Promote(now, due)));
    MovesConserve(cfg, s, Promote(now, due));
    ExecConsistent(cfg, s, Promote(now, due));
    DelayedLoses(s, due, t, u);
    ReadyGains(s, t, u);
  }

  lemma DelayedLoses(s: State, due: seq<Job>, t: State, u: Url)
    requires t.delayed == s.delayed - Elements(due) && forall j :: j in due ==> j in s.delayed
    ensures |InDelayed(t, u)| == |InDelayed(s, u)| - |InList(due, u)|
  {
    assert InDelayed(t, u) == InDelayed(s, u) - InList(due, u);
    assert InList(due, u) <= InDelayed(s, u);
  }

  lemma ReadyGains(s: State, t: State, u: Url)
    requires Ordered(s) && Identified(s) && Ordered(t) && Identified(t) && Conserves(s, t)
    requires t.processing == s.processing
    ensures |InList(t.ready, u)| + |InDelayed(t, u)| == |InList(s.ready, u)| + |InDelayed(s, u)|
  {
    JobsSplit(s, u);
    JobsSplit(t, u);
    assert |JobsOf(t, u)| == |JobsOf(s, u)|;
  }

  /** Ready and delayed together hold as many jobs of each URL. */
  ghost predicate SameTotals(s: State, t: State) {
    forall u :: |InList(t.ready, u)| + |InDelayed(t, u)| == |InList(s.ready, u)| + |InDelayed(s, u)|
  }

  lemma SameTotalsTrans(s: State, r: State, t: State)
    requires SameTotals(s, r) && SameTotals(r, t)
    ensures SameTotals(s, t)
  {
    forall u
      ensures |InList(t.ready, u)| + |InDelayed(t, u)| == |InList(s.ready, u)| + |InDelayed(s, u)|
    {
      assert |InList(r.ready, u)| + |InDelayed(r, u)| == |InList(s.ready, u)| + |InDelayed(s, u)|;
    }
  }

  /** delayed has lost n times up to 100 jobs that are due, and no other. */
  ghost predicate Drained(s: State, n: nat, now: int, t: State) {
    && t.delayed == s.delayed - (DueJobs(s, now) - DueJobs(t, now)) && DueJobs(t, now) <= DueJobs(s, now)
    && |DueJobs(t, now)| == Less(|DueJobs(s, now)|, 100 * n)
  }

  /** What n promotions at one clock make of s. */
  ghost predicate Promoting(cfg: Config, s: State, n: nat, now: int, t: State) {
    && Consistent(cfg, t) && t.lease == s.lease && t.processing == s.processing
    && Drained(s, n, now, t) && SameTotals(s, t)
  }

  lemma DueShrinks(s: State, now: int, due: seq<Job>, t: State)
    requires IsRange(s.delayed, now, 100, due) && t.delayed == s.delayed - Elements(due)
    ensures DueJobs(t, now) == DueJobs(s, now) - Elements(due) && Elements(due) <= DueJobs(s, now)
    ensures |DueJobs(t, now)| == Less(|DueJobs(s, now)|, 100)
  {
    RangeSize(s.delayed, now, 100, due);
    DistinctSize(due);
    assert DueJobs(t, now) == DueJobs(s, now) - Elements(due);
    assert Elements(due) <= DueJobs(s, now);
    assert DueJobs(s, now) == set j | j in s.delayed && s.delayed[j] <= now;
  }

  lemma TickPromotes(cfg: Config, s: State, now: int, t: State) returns (due: seq<Job>)
    requires cfg.Valid() && Consistent(cfg, s) && PromoterTick(cfg, s, now, t)
    ensures Consistent(cfg, t) && Promotes(s, due, t) && IsRange(s.delayed, now, 100, due) && SameTotals(s, t)
  {
    due :| Enabled(cfg, s, Promote(now, due)) && t == Exec(cfg, s, Promote(now, due));
    ExecConsistent(cfg, s, Promote(now, due));
    PromoteLaw(cfg, s, now, due, t, Answer(cfg, s, Promote(now, due)));
    forall u
      ensures |InList(t.ready, u)| + |InDelayed(t, u)| == |InList(s.ready, u)| + |InDelayed(s, u)|
    {
      PromoteCounts(cfg, s, now, due, t, u);
    }
  }

  lemma DrainedStep(s: State, n: nat, now: int, r: State, due: seq<Job>, t: State)
    requires Drained(s, n, now, r) && IsRange(r.delayed, now, 100, due) && t.delayed == r.delayed - Elements(due)
    ensures Drained(s, n + 1, now, t)
  {
    DueShrinks(r, now, due, t);
    LessTwice(s.delayed, DueJobs(s, now), DueJobs(r, now), Elements(due));
  }

  lemma LessTwice(m: map<Job, int>, a: set<Job>, b: set<Job>, e: set<Job>)
    requires e <= b <= a
    ensures (m - (a - b)) - e == m - (a - (b - e))
  {
    assert (a - b) + e == a - (b - e);
  }

  lemma PromotingStep(cfg: Config, s: State, n: nat, now: int, r: State, t: State)
    requires cfg.Valid() && Promoting(cfg, s, n, now, r) && PromoterTick(cfg, r, now, t)
    ensures Promoting(cfg, s, n + 1, now, t)
  {
    var due := TickPromotes(cfg, r, now, t);
    DrainedStep(s, n, now, r, due, t);
    SameTotalsTrans(s, r, t);
  }

  lemma PromotingStart(cfg: Config, s: State, now: int)
    requires Consistent(cfg, s)
    ensures Promoting(cfg, s, 0, now, s)
  {
    assert s.delayed - (DueJobs(s, now) - DueJobs(s, now)) == s.delayed;
  }

  /** A property that every step carries on holds after n of them. */
  lemma {:induction false} StepInduction(P: (nat, State) -> bool, T: (State, State) -> bool, ss: seq<State>, n: nat)
    requires n < |ss| && P(0, ss[0]) && forall i :: 0 <= i < |ss| - 1 ==> T(ss[i], ss[i + 1])
    requires forall k: nat, r, t :: P(k, r) && T(r, t) ==> P(k + 1, t)
    ensures P(n, ss[n])
  {
    if n > 0 {
      StepInduction(P, T, ss, n - 1);
      assert T(ss[n - 1], ss[n - 1 + 1]);
    }
  }

  lemma PromotersConverge(cfg: Config, ss: seq<State>, now: int)
    requires cfg.Valid() && ss != [] && Consistent(cfg, ss[0])
    requires forall i :: 0 <= i < |ss| - 1 ==> PromoterTick(cfg, ss[i], now, ss[i + 1])
    ensures Promoting(cfg, ss[0], |ss| - 1, now, Last(ss))
  {
    ghost var P := (n: nat, t: State) => Promoting(cfg, ss[0], n, now, t);
    ghost var T := (r: State, t: State) => PromoterTick(cfg, r, now, t);
    PromotingStart(cfg, ss[0], now);
    forall k: nat, r, t | P(k, r) && T(r, t)
      ensures P(k + 1, t)
    {
      PromotingStep(cfg, ss[0], k, now, r, t);
    }
    StepInduction(P, T, ss, |ss| - 1);
  }

  /** From any state crashes can leave, ceil(due / 100) promotions at one clock leave no delayed job due: each is
      gone, the others keep their times, and every URL has as many more jobs in ready as it had due ones. */
  lemma PromotionConverges(cfg: Config, ss: seq<State>, now: int, u: Url)
    requires cfg.Valid() && ss != [] && Consistent(cfg, ss[0])
    requires forall i :: 0 <= i < |ss| - 1 ==> PromoterTick(cfg, ss[i], now, ss[i + 1])
    requires 100 * (|ss| - 1) >= |DueJobs(ss[0], now)|
    ensures var s, t := ss[0], Last(ss);
            && DueJobs(t, now) == {} && t.delayed == s.delayed - DueJobs(s, now)
            && |InList(t.ready, u)| == |InList(s.ready, u)| + |set j | j in DueJobs(s, now) && j.url == u|
            && t.lease == s.lease && t.processing == s.processing
  {
    PromotersConverge(cfg, ss, now);
    AllDrained(ss[0], |ss| - 1, now, Last(ss), u);
  }

  lemma AllDrained(s: State, n: nat, now: int, t: State, u: Url)
    requires Drained(s, n, now, t) && SameTotals(s, t) && 100 * n >= |DueJobs(s, now)|
    ensures DueJobs(t, now) == {} && t.delayed == s.delayed - DueJobs(s, now)
    ensures |InList(t.ready, u)| == |InList(s.ready, u)| + |set j | j in DueJobs(s, now) && j.url == u|
  {
    assert DueJobs(t, now) == {};
    assert DueJobs(s, now) - {} == DueJobs(s, now);
    var mine := set j | j in DueJobs(s, now) && j.url == u;
    assert InDelayed(t, u) == InDelayed(s, u) - mine && mine <= InDelayed(s, u);
  }
}
