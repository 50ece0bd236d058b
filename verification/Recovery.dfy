/** Conservation of work by the moving scripts, convergence of Reap and Sweep after crashes, and
    exactness of the scheduler's drain loop. */
module Recovery {
  import opened Keyspace
  import opened Scripts
  import opened Discipline
  import opened CrashSafety
  import opened Effects
  import opened Exactness
  import opened Runs

  // ---- conservation ----

  /** Every URL has as many live jobs in t as in s. */
  ghost predicate Conserves(s: State, t: State) {
    forall u :: |JobsOf(t, u)| == |JobsOf(s, u)|
  }

  lemma JobsLive(s: State)
    ensures forall j :: j in Jobs(s) <==> IsLive(s, j)
  {
  }

  lemma SameConserves(s: State, t: State)
    requires SameLive(s, t)
    ensures Conserves(s, t)
  {
    JobsLive(s);
    JobsLive(t);
    forall u
      ensures JobsOf(t, u) == JobsOf(s, u)
    {
    }
  }

  lemma ReplaceConserves(s: State, t: State, j: Job, i: Job)
    requires Replaced(s, t, j, i) && IsLive(s, j) && !IsLive(s, i) && i.url == j.url
    ensures Conserves(s, t)
  {
    JobsLive(s);
    JobsLive(t);
    forall u
      ensures |JobsOf(t, u)| == |JobsOf(s, u)|
    {
      if u == j.url {
        assert JobsOf(t, u) == JobsOf(s, u) - {j} + {i};
      } else {
        assert JobsOf(t, u) == JobsOf(s, u);
      }
    }
  }

  lemma FreshNotLive(s: State, u: Url)
    requires Identified(s)
    ensures !IsLive(s, Fresh(s, u))
  {
  }

  lemma SweptReplaced(s: State, j: Job)
    requires Ordered(s) && Identified(s) && j in s.processing
    ensures Replaced(s, Swept(s, j), j, Fresh(s, j.url))
  {
    RemoveOnly(s.processing, j);
    RemoveDescending(s.processing, j);
    assert IsLive(s, j);
    assert j !in s.ready && j !in s.delayed;
    assert Swept(s, j).ready == [Fresh(s, j.url)] + s.ready;
  }

  lemma SweptConserves(s: State, j: Job)
    requires Ordered(s) && Identified(s) && j in s.processing
    ensures Conserves(s, Swept(s, j))
  {
    SweptReplaced(s, j);
    FreshNotLive(s, j.url);
    assert IsLive(s, j);
    ReplaceConserves(s, Swept(s, j), j, Fresh(s, j.url));
  }

  lemma ReapedConserves(s: State, j: Job)
    requires Ordered(s) && Identified(s) && j in s.processing
    ensures Conserves(s, Reaped(s, j))
  {
    var s1 := Apply(s, RemLease(j));
    assert SameLive(s, s1);
    SameConserves(s, s1);
    UnleasedIdentified(s, j);
    SweptConserves(s1, j);
  }

  lemma PromotedConserves(s: State, j: Job)
    requires Identified(s) && j in s.delayed
    ensures Conserves(s, Promoted(s, j))
  {
    assert IsLive(s, j);
    assert Promoted(s, j).ready == [Fresh(s, j.url)] + s.ready;
    assert Replaced(s, Promoted(s, j), j, Fresh(s, j.url));
    FreshNotLive(s, j.url);
    ReplaceConserves(s, Promoted(s, j), j, Fresh(s, j.url));
  }

  lemma LeasedLive(cfg: Config, s: State, j: Job)
    requires Consistent(cfg, s) && j in s.lease
    ensures j in s.processing && IsLive(s, j)
  {
  }

  lemma {:induction false} ReapConserves(cfg: Config, s: State, expired: seq<Job>)
    requires Consistent(cfg, s)
    ensures Conserves(s, Run(s, ReapScript(s, expired)))
    decreases |expired|
  {
    if expired != [] {
      var j := expired[0];
      if j in s.lease {
        LeasedLive(cfg, s, j);
        ReapedConserves(s, j);
        ReapedConsistent(cfg, s, Sweep, s, j);
        ReapRun(s, expired);
        ReapConserves(cfg, Reaped(s, j), expired[1..]);
      } else {
        ReapConserves(cfg, s, expired[1..]);
      }
    }
  }

  lemma SweepRun(s: State, items: seq<Job>)
    requires items != [] && items[0] !in s.lease
    ensures Run(s, SweepScript(s, items)) == Run(Swept(s, items[0]), SweepScript(Swept(s, items[0]), items[1..]))
  {
    var j := items[0];
    var rest := SweepScript(Swept(s, j), items[1..]);
    Run2(s, Incr, PushReady(Fresh(s, j.url)), Do(RemProcessing(j), rest));
    assert Run(Enqueued(s, j.url), Do(RemProcessing(j), rest)) == Run(Swept(s, j), rest);
  }

  lemma ReapOneRun(s: State, expired: seq<Job>)
    requires expired != []
    ensures var t := if expired[0] in s.lease then Reaped(s, expired[0]) else s;
            && Run(s, ReapScript(s, expired)) == Run(t, ReapScript(t, expired[1..]))
            && ReapCount(s, expired) == ReapCount(t, expired[1..]) + if expired[0] in s.lease then 1 else 0
  {
    if expired[0] in s.lease {
      ReapRun(s, expired);
    }
  }

  lemma SweepOneRun(s: State, items: seq<Job>)
    requires items != []
    ensures var t := if items[0] in s.lease then s else Swept(s, items[0]);
            && Run(s, SweepScript(s, items)) == Run(t, SweepScript(t, items[1..]))
            && SweepCount(s, items) == SweepCount(t, items[1..]) + if items[0] in s.lease then 0 else 1
  {
    if items[0] !in s.lease {
      SweepRun(s, items);
    }
  }

  lemma {:induction false} SweepConserves(cfg: Config, s: State, items: seq<Job>)
    requires Consistent(cfg, s) && AllProcessing(s, items)
    ensures Conserves(s, Run(s, SweepScript(s, items)))
    decreases |items|
  {
    if items != [] {
      var j := items[0];
      SweepRest(s, items);
      if j in s.lease {
        SweepConserves(cfg, s, items[1..]);
      } else {
        assert j in s.processing && IsLive(s, j);
        SweptConserves(s, j);
        SweptConsistent(cfg, s, Sweep, s, j);
        SweepRun(s, items);
        SweepConserves(cfg, Swept(s, j), items[1..]);
      }
    }
  }

  lemma {:induction false} PromoteConserves(cfg: Config, s: State, due: seq<Job>)
    requires Consistent(cfg, s) && AllDelayed(s, due)
    ensures Conserves(s, Run(s, PromoteScript(s, due)))
    decreases |due|
  {
    if due != [] {
      PromotedConserves(s, due[0]);
      PromotedSafe(cfg, s, Sweep, s, due[0]);
      PromoteRun(s, due);
      PromoteRest(s, due);
      PromoteConserves(cfg, Promoted(s, due[0]), due[1..]);
    }
  }

  lemma LeaseConserves(cfg: Config, s: State, c: Call)
    requires cfg.Valid() && c.Lease?
    ensures Conserves(s, Exec(cfg, s, c))
  {
    LeaseRun(cfg, s, c);
    if s.ready != [] {
      var s1 := Apply(s, MoveReady);
      assert s.ready == s1.ready + [Last(s.ready)];
      assert s1.processing == [Last(s.ready)] + s.processing;
    }
    SameConserves(s, Exec(cfg, s, c));
  }

  lemma PostponedReplaced(s: State, j: Job, t: State, at: int)
    requires Ordered(s) && Identified(s) && j in s.processing && Released(s, j, t)
    ensures Replaced(s, Postponed(t, j, at), j, Fresh(s, j.url))
  {
    RemoveOnly(s.processing, j);
    RemoveDescending(s.processing, j);
    assert IsLive(s, j);
    assert j !in s.ready && j !in s.delayed;
  }

  lemma FailConserves(cfg: Config, s: State, c: Call)
    requires cfg.Valid() && Consistent(cfg, s) && c.Fail? && c.job in s.lease && !Dies(cfg, s, c.job.url, c.kind)
    ensures Conserves(s, Exec(cfg, s, c))
  {
    LeasedLive(cfg, s, c.job);
    FailRun(cfg, s, c);
    StruckReleased(s, c.job, c.kind);
    PostponedReplaced(s, c.job, Struck(s, c.job, c.kind), RetryAt(cfg, s, c.job.url, c.kind, c.now));
    FreshNotLive(s, c.job.url);
    ReplaceConserves(s, Exec(cfg, s, c), c.job, Fresh(s, c.job.url));
  }

  /** Calls that only move work: they end no job and start none. */
  predicate Moves(cfg: Config, s: State, c: Call)
    requires cfg.Valid()
  {
    c.Lease? || c.Nack? || c.Promote? || c.Reap? || c.Sweep? || (c.Fail? && Answer(cfg, s, c) == Delayed)
  }

  /** Even from a state that crashes left behind, moving work neither loses nor duplicates any. */
  lemma MovesConserve(cfg: Config, s: State, c: Call)
    requires cfg.Valid() && Consistent(cfg, s) && Enabled(cfg, s, c) && Moves(cfg, s, c)
    ensures Conserves(s, Exec(cfg, s, c))
  {
    match c
    case Lease(_) => LeaseConserves(cfg, s, c);
    case Nack(j) => if j in s.lease { NackRun(cfg, s, c); LeasedLive(cfg, s, j); ReapedConserves(s, j); }
    case Promote(_, jobs) => PromoteConserves(cfg, s, jobs);
    case Reap(_, jobs) => ReapConserves(cfg, s, jobs);
    case Sweep => SweepConserves(cfg, s, SweepItems(s));
    case Fail(_, _, _) => FailConserves(cfg, s, c);
  }

  // ---- convergence ----

  ghost predicate AllClaimable(s: State, expired: seq<Job>) {
    && (forall j :: j in expired ==> j in s.lease)
    && (forall a, b :: 0 <= a < b < |expired| ==> expired[a] != expired[b])
  }

  lemma ReapRest(s: State, expired: seq<Job>, t: State)
    requires expired != [] && LeasesHeld(s) && AllClaimable(s, expired) && t == Reaped(s, expired[0])
    ensures t.lease == s.lease - {expired[0]} && t.delayed == s.delayed
    ensures LeasesHeld(t) && AllClaimable(t, expired[1..])
    ensures |t.processing| == |s.processing| - 1 && |t.lease| == |s.lease| - 1
  {
    assert expired[0] in expired;
    RemoveOnly(s.processing, expired[0]);
    assert t.lease.Keys == s.lease.Keys - {expired[0]};
  }

  lemma {:induction false} ReapSizes(s: State, expired: seq<Job>, t: State)
    requires LeasesHeld(s) && AllClaimable(s, expired) && t == Run(s, ReapScript(s, expired))
    ensures |t.lease| == |s.lease| - |expired| && |t.processing| == |s.processing| - |expired|
    ensures t.delayed == s.delayed && (forall j :: j in t.lease ==> j in s.lease && t.lease[j] == s.lease[j])
    decreases |expired|
  {
    if expired != [] {
      assert expired[0] in expired;
      ReapRest(s, expired, Reaped(s, expired[0]));
      ReapRun(s, expired);
      ReapSizes(Reaped(s, expired[0]), expired[1..], t);
    }
  }

  lemma {:induction false} SweepSizes(s: State, items: seq<Job>, t: State)
    requires AllProcessing(s, items) && t == Run(s, SweepScript(s, items))
    ensures t.lease == s.lease && t.delayed == s.delayed && |t.processing| <= |s.processing|
    ensures s.lease == map[] ==> |t.processing| == |s.processing| - |items|
    decreases |items|
  {
    if items != [] {
      SweepRest(s, items);
      if items[0] in s.lease {
        SweepSizes(s, items[1..], t);
      } else {
        SweepRun(s, items);
        SweepSizes(Swept(s, items[0]), items[1..], t);
      }
    }
  }

  /** A range answer is as long as the limit allows. */
  lemma RangeSize<K(!new)>(m: map<K, int>, hi: int, limit: nat, r: seq<K>)
    requires IsRange(m, hi, limit, r)
    ensures var due := set k | k in m && m[k] <= hi; |r| == if |due| <= limit then |due| else limit
  {
    var due := set k | k in m && m[k] <= hi;
    var got := set k | k in r;
    DistinctSize(r);
    assert got <= due;
    SubsetSize(got, due);
    if |r| < limit {
      assert got == due;
    }
  }

  function Less(n: nat, k: nat): nat {
    if n <= k then 0 else n - k
  }

  ghost predicate AllExpired(s: State, now: int) {
    forall j :: j in s.lease ==> s.lease[j] <= now
  }

  /** One Reap, once every lease has expired. */
  lemma ReapProgress(s: State, now: int, jobs: seq<Job>, t: State)
    requires LeasesHeld(s) && AllExpired(s, now) && IsRange(s.lease, now, REAP_LIMIT, jobs)
    requires t == Run(s, ReapScript(s, jobs))
    ensures |t.lease| == Less(|s.lease|, REAP_LIMIT) && |t.processing| <= |s.processing| && t.delayed == s.delayed
    ensures s.lease == map[] ==> t.lease == map[] && |t.processing| == |s.processing|
    ensures forall j :: j in t.lease ==> j in s.lease && t.lease[j] == s.lease[j]
  {
    RangeSize(s.lease, now, REAP_LIMIT, jobs);
    assert (set j | j in s.lease && s.lease[j] <= now) == s.lease.Keys;
    ReapSizes(s, jobs, t);
  }

  /** One Sweep. */
  lemma SweepProgress(s: State, t: State)
    requires Descending(s.processing) && t == Run(s, SweepScript(s, SweepItems(s)))
    ensures t.lease == s.lease && t.delayed == s.delayed && |t.processing| <= |s.processing|
    ensures s.lease == map[] ==> |t.processing| == Less(|s.processing|, SWEEP_LIMIT)
  {
    SweepItemsProcessing(s);
    SweepSizes(s, SweepItems(s), t);
  }

  /** t follows s by one tick of the reaper, whose clock reads now or later, or of the sweeper. */
  ghost predicate Tick(cfg: Config, s: State, reap: bool, now: int, t: State)
    requires cfg.Valid()
  {
    exists c :: Enabled(cfg, s, c) && t == Exec(cfg, s, c) && if reap then c.Reap? && c.now >= now else c.Sweep?
  }

  /** How a tick changes the sizes. */
  predicate Shrinks(s: State, reap: bool, t: State) {
    && |t.lease| == (if reap then Less(|s.lease|, REAP_LIMIT) else |s.lease|)
    && |t.processing| <= |s.processing| && t.delayed == s.delayed
    && (s.lease == map[] ==> t.lease == map[]
                             && |t.processing| == if reap then |s.processing| else Less(|s.processing|, SWEEP_LIMIT))
  }

  lemma TickShrinks(cfg: Config, s: State, c: Call, now: int, t: State)
    requires cfg.Valid() && LeasesHeld(s) && Descending(s.processing) && AllExpired(s, now)
    requires Enabled(cfg, s, c) && t == Exec(cfg, s, c) && (c.Sweep? || (c.Reap? && c.now >= now))
    ensures Shrinks(s, c.Reap?, t) && AllExpired(t, now)
  {
    if c.Reap? {
      ReapProgress(s, c.now, c.jobs, t);
    } else {
      SweepProgress(s, t);
    }
  }

  lemma TickProgress(cfg: Config, s: State, reap: bool, now: int, t: State)
    requires cfg.Valid() && Consistent(cfg, s) && AllExpired(s, now) && Tick(cfg, s, reap, now, t)
    ensures Consistent(cfg, t) && AllExpired(t, now) && Conserves(s, t) && Shrinks(s, reap, t)
  {
    var c :| Enabled(cfg, s, c) && t == Exec(cfg, s, c) && if reap then c.Reap? && c.now >= now else c.Sweep?;
    TickShrinks(cfg, s, c, now, t);
    ExecConsistent(cfg, s, c);
    MovesConserve(cfg, s, c);
  }

  lemma ConservesTrans(s: State, r: State, t: State)
    requires Conserves(s, r) && Conserves(r, t)
    ensures Conserves(s, t)
  {
  }

  /** How many of the ticks are of one kind. */
  function Ticks(reaps: seq<bool>, reap: bool): nat {
    if reaps == [] then 0 else Ticks(reaps[..|reaps| - 1], reap) + if Last(reaps) == reap then 1 else 0
  }

  ghost predicate IsTicking(cfg: Config, ss: seq<State>, reaps: seq<bool>, now: int)
    requires cfg.Valid()
  {
    |ss| == |reaps| + 1 && forall i :: 0 <= i < |reaps| ==> Tick(cfg, ss[i], reaps[i], now, ss[i + 1])
  }

  /** What any number of ticks, in any order, leaves. */
  predicate Shrunk(s: State, reaps: seq<bool>, t: State) {
    && |t.lease| == Less(|s.lease|, REAP_LIMIT * Ticks(reaps, true))
    && |t.processing| <= |s.processing| && t.delayed == s.delayed
    && (s.lease == map[] ==> t.lease == map[]
                             && |t.processing| == Less(|s.processing|, SWEEP_LIMIT * Ticks(reaps, false)))
  }

  lemma ShrunkStep(s: State, reaps: seq<bool>, r: State, reap: bool, t: State)
    requires Shrunk(s, reaps, r) && Shrinks(r, reap, t)
    ensures Shrunk(s, reaps + [reap], t)
  {
    assert (reaps + [reap])[..|reaps|] == reaps;
  }

  /** t is what the ticks have made of s, with nothing lost. */
  ghost predicate Recovering(cfg: Config, s: State, reaps: seq<bool>, now: int, t: State) {
    Consistent(cfg, t) && AllExpired(t, now) && Conserves(s, t) && Shrunk(s, reaps, t)
  }

  lemma RecoveringStart(cfg: Config, s: State, now: int)
    requires Consistent(cfg, s) && AllExpired(s, now)
    ensures Recovering(cfg, s, [], now, s)
  {
  }

  lemma RecoveringStep(cfg: Config, s: State, reaps: seq<bool>, r: State, reap: bool, now: int, t: State)
    requires cfg.Valid() && Recovering(cfg, s, reaps, now, r) && Tick(cfg, r, reap, now, t)
    ensures Recovering(cfg, s, reaps + [reap], now, t)
  {
    TickProgress(cfg, r, reap, now, t);
    ConservesTrans(s, r, t);
    ShrunkStep(s, reaps, r, reap, t);
  }

  lemma TickingSplit(cfg: Config, ss: seq<State>, reaps: seq<bool>, p: nat, now: int)
    requires cfg.Valid() && IsTicking(cfg, ss, reaps, now) && p <= |reaps|
    ensures IsTicking(cfg, ss[..p + 1], reaps[..p], now) && IsTicking(cfg, ss[p..], reaps[p..], now)
  {
    forall i | 0 <= i < p
      ensures Tick(cfg, ss[..p + 1][i], reaps[..p][i], now, ss[..p + 1][i + 1])
    {
      assert Tick(cfg, ss[i], reaps[i], now, ss[i + 1]);
    }
    forall i | 0 <= i < |reaps| - p
      ensures Tick(cfg, ss[p..][i], reaps[p..][i], now, ss[p..][i + 1])
    {
      assert Tick(cfg, ss[p + i], reaps[p + i], now, ss[p + i + 1]);
    }
  }

  /** A property that every tick carries on holds after all of them. */
  lemma {:induction false} TickInduction(P: (seq<bool>, State) -> bool, T: (State, bool, State) -> bool,
                                         ss: seq<State>, reaps: seq<bool>, n: nat)
    requires |ss| == |reaps| + 1 && n <= |reaps| && P([], ss[0])
    requires forall i :: 0 <= i < |reaps| ==> T(ss[i], reaps[i], ss[i + 1])
    requires forall rs, r, b, t :: P(rs, r) && T(r, b, t) ==> P(rs + [b], t)
    ensures P(reaps[..n], ss[n])
  {
    if n > 0 {
      TickInduction(P, T, ss, reaps, n - 1);
      assert reaps[..n - 1] + [reaps[n - 1]] == reaps[..n];
      assert T(ss[n - 1], reaps[n - 1], ss[n]);
    } else {
      assert reaps[..0] == [];
    }
  }

  /** Reaps and sweeps in any order, once all leases have expired: k reaps leave max(0, leases - 100k) leases;
      without leases, k sweeps leave max(0, entries - 100k) processing entries; no work is lost. */
  lemma TicksConverge(cfg: Config, ss: seq<State>, reaps: seq<bool>, now: int)
    requires cfg.Valid() && IsTicking(cfg, ss, reaps, now) && Consistent(cfg, ss[0]) && AllExpired(ss[0], now)
    ensures Recovering(cfg, ss[0], reaps, now, Last(ss))
  {
    ghost var P := (rs: seq<bool>, t: State) => Recovering(cfg, ss[0], rs, now, t);
    ghost var T := (r: State, b: bool, t: State) => Tick(cfg, r, b, now, t);
    RecoveringStart(cfg, ss[0], now);
    forall rs, r, b, t | P(rs, r) && T(r, b, t)
      ensures P(rs + [b], t)
    {
      RecoveringStep(cfg, ss[0], rs, r, b, now, t);
    }
    TickInduction(P, T, ss, reaps, |reaps|);
    assert reaps[..|reaps|] == reaps;
  }

  function InList(q: seq<Job>, u: Url): set<Job> {
    set j | j in q && j.url == u
  }

  function InDelayed(s: State, u: Url): set<Job> {
    set j | j in s.delayed && j.url == u
  }

  lemma PartsDisjoint(s: State, u: Url)
    requires Ordered(s) && Identified(s)
    ensures InList(s.ready, u) !! InList(s.processing, u)
    ensures (InList(s.ready, u) + InList(s.processing, u)) !! InDelayed(s, u)
  {
  }

  lemma JobsUnion(s: State, u: Url)
    ensures JobsOf(s, u) == InList(s.ready, u) + InList(s.processing, u) + InDelayed(s, u)
  {
  }

  lemma JobsSplit(s: State, u: Url)
    requires Ordered(s) && Identified(s)
    ensures |JobsOf(s, u)| == |InList(s.ready, u)| + |InList(s.processing, u)| + |InDelayed(s, u)|
  {
    var a, b, c := InList(s.ready, u), InList(s.processing, u), InDelayed(s, u);
    JobsUnion(s, u);
    PartsDisjoint(s, u);
    assert |a + b| == |a| + |b|;
  }

  /** From any state crashes can leave, once all leases have expired: reaper and sweeper may tick in any order.
      As soon as ceil(leases / 100) reaps and, after them, ceil(processing / 100) sweeps are among the ticks, no
      lease and no processing entry is left, and every URL has its former processing jobs added to ready. */
  lemma RecoveryConverges(cfg: Config, ss: seq<State>, reaps: seq<bool>, p: nat, now: int, u: Url)
    requires cfg.Valid() && IsTicking(cfg, ss, reaps, now) && Consistent(cfg, ss[0]) && AllExpired(ss[0], now)
    requires p <= |reaps| && REAP_LIMIT * Ticks(reaps[..p], true) >= |ss[0].lease|
    requires SWEEP_LIMIT * Ticks(reaps[p..], false) >= |ss[0].processing|
    ensures var s, t := ss[0], Last(ss);
            && t.processing == [] && t.lease == map[] && t.delayed == s.delayed && Consistent(cfg, t)
            && |InList(t.ready, u)| == |InList(s.ready, u)| + |InList(s.processing, u)|
  {
    TickingSplit(cfg, ss, reaps, p, now);
    TicksConverge(cfg, ss[..p + 1], reaps[..p], now);
    TicksConverge(cfg, ss[p..], reaps[p..], now);
    assert Last(ss[p..]) == Last(ss);
    Recovered(cfg, ss[0], reaps[..p], ss[p], reaps[p..], Last(ss), now, u);
  }

  lemma Recovered(cfg: Config, s: State, first: seq<bool>, m: State, second: seq<bool>, t: State, now: int, u: Url)
    requires Consistent(cfg, s) && Recovering(cfg, s, first, now, m) && Recovering(cfg, m, second, now, t)
    requires REAP_LIMIT * Ticks(first, true) >= |s.lease| && SWEEP_LIMIT * Ticks(second, false) >= |s.processing|
    ensures t.processing == [] && t.lease == map[] && t.delayed == s.delayed
    ensures |InList(t.ready, u)| == |InList(s.ready, u)| + |InList(s.processing, u)|
  {
    assert |m.lease.Keys| == 0;
    assert m.lease == map[];
    ConservesTrans(s, m, t);
    JobsSplit(s, u);
    JobsSplit(t, u);
    assert InList(t.processing, u) == {};
  }

  // ---- the drain loop ----

  function DueListings(s: State, now: int): set<Url> {
    set u | u in s.next && s.next[u] <= now
  }

  /** A scheduler call admits exactly min(limit, due) listings, and exactly those stop being due. */
  lemma ScheduleProgress(cfg: Config, s: State, now: int, urls: seq<Url>, t: State)
    requires cfg.Valid() && Exact(cfg, s) && Enabled(cfg, s, Schedule(now, urls))
    requires t == Exec(cfg, s, Schedule(now, urls))
    ensures Exact(cfg, t)
    ensures Answer(cfg, s, Schedule(now, urls)) == Count(|urls|)
    ensures |urls| == if |DueListings(s, now)| <= cfg.batchLimit then |DueListings(s, now)| else cfg.batchLimit
    ensures DueListings(t, now) == DueListings(s, now) - set u | u in urls
    ensures |DueListings(t, now)| == |DueListings(s, now)| - |urls|
  {
    ScheduleExact(cfg, s, urls, now);
    ScheduledAllNext(s, urls);
    RangeSize(s.next, now, cfg.batchLimit, urls);
    DueAfter(s, t, now, urls);
  }

  /** Listings that are not PENDING: those that are due at some clock. */
  function Waiting(s: State): set<Url> {
    DueListings(s, PENDING_SCORE - 1)
  }

  /** Whatever the clock, each admission takes one listing from those that are not PENDING. */
  lemma ScheduleWaits(cfg: Config, s: State, now: int, urls: seq<Url>, t: State)
    requires cfg.Valid() && Exact(cfg, s) && Enabled(cfg, s, Schedule(now, urls))
    requires t == Exec(cfg, s, Schedule(now, urls))
    ensures |Waiting(t)| == |Waiting(s)| - |urls|
  {
    ScheduleExact(cfg, s, urls, now);
    ScheduledAllNext(s, urls);
    DueAfter(s, t, PENDING_SCORE - 1, urls);
  }

  lemma DueAfter(s: State, t: State, now: int, urls: seq<Url>)
    requires now < PENDING_SCORE && AllDue(s, urls, now)
    requires t.next == s.next + map u | u in urls :: PENDING_SCORE
    ensures DueListings(t, now) == DueListings(s, now) - set u | u in urls
    ensures |DueListings(t, now)| == |DueListings(s, now)| - |urls|
  {
    var got := set u | u in urls;
    forall u
      ensures u in DueListings(t, now) <==> u in DueListings(s, now) - got
    {
    }
    DistinctSize(urls);
    assert got <= DueListings(s, now);
    assert DueListings(s, now) == DueListings(t, now) + got;
  }
}
