/** The frontier object: each method performs its Lua script in place, command by command, and is
    proved to end in the state and with the answer that `Scripts` gives. */
module Frontier {
  import opened Keyspace
  import opened Scripts
  import opened Effects
  import opened Exactness
  import opened Recovery
  import opened Laws

  /** The member of a nonempty set with the least score. */
  method Least<K(==)>(m: map<K, int>, ks: set<K>) returns (k: K)
    requires ks != {} && ks <= m.Keys
    ensures k in ks && forall x :: x in ks ==> m[k] <= m[x]
  {
    k :| k in ks;
    var rest := ks - {k};
    while rest != {}
      invariant k in ks && rest <= ks
      invariant forall x :: x in ks && x !in rest ==> m[k] <= m[x]
      decreases rest
    {
      var x :| x in rest;
      if m[x] < m[k] {
        k := x;
      }
      rest := rest - {x};
    }
  }

  /** ZRANGEBYSCORE m -inf hi LIMIT 0 limit. */
  method RangeByScore<K(==, !new)>(m: map<K, int>, hi: int, limit: nat) returns (r: seq<K>)
    ensures IsRange(m, hi, limit, r)
  {
    r := [];
    var rest := set k | k in m && m[k] <= hi;
    while rest != {} && |r| < limit
      invariant |r| <= limit
      invariant forall k :: k in rest <==> k in m && m[k] <= hi && k !in r
      invariant forall k :: k in r ==> k in m && m[k] <= hi
      invariant forall a, b :: 0 <= a < b < |r| ==> r[a] != r[b]
      invariant forall a, b :: 0 <= a < b < |r| ==> m[r[a]] <= m[r[b]]
      invariant forall k, x :: k in rest && x in r ==> m[x] <= m[k]
      decreases rest
    {
      var k := Least(m, rest);
      rest := rest - {k};
      r := r + [k];
    }
  }

  class RedisFrontier {
    const cfg: Config
    var jobSeq: nat
    var ready: seq<Job>
    var processing: seq<Job>
    var lease: map<Job, int>
    var delayed: map<Job, int>
    var dead: map<Url, Dead>
    var attempts: map<Url, nat>
    var strikes: map<Url, nat>
    var next: map<Url, int>
    var barren: map<Url, nat>
    var claimed: set<Url>

    ghost function View(): State
      reads this
    {
      State(jobSeq, ready, processing, lease, delayed, dead, attempts, strikes, next, barren, claimed)
    }

    constructor (cfg: Config)
      ensures this.cfg == cfg && View() == EMPTY
    {
      this.cfg := cfg;
      jobSeq, ready, processing, lease, delayed := 0, [], [], map[], map[];
      dead, attempts, strikes, next, barren, claimed := map[], map[], map[], map[], map[], {};
    }

    /** INCR job:seq and LPUSH the fresh member. */
    method Enqueue(url: Url)
      modifies this
      ensures View() == Enqueued(old(View()), url)
    {
      jobSeq := jobSeq + 1;
      ready := [Job(jobSeq, url)] + ready;
    }

    /** LREM processing and drop the failure counters. */
    method Close(j: Job)
      modifies this
      ensures View() == Closed(old(View()), j)
    {
      processing := Remove(processing, j);
      attempts := attempts - {j.url};
      strikes := strikes - {j.url};
    }

    method Bury(j: Job, d: Dead)
      modifies this
      ensures View() == Buried(old(View()), j, d)
    {
      if d.until > 0 {
        next := next[j.url := d.until];
      }
      dead := dead[j.url := d];
      Close(j);
    }

    /** A fresh job for the URL first, then the old processing entry goes. */
    method Requeue(j: Job)
      modifies this
      ensures View() == Swept(old(View()), j)
    {
      Enqueue(j.url);
      processing := Remove(processing, j);
    }

    method Lease(now: int) returns (r: Option<Job>)
      requires cfg.Valid()
      modifies this
      ensures View() == Exec(cfg, old(View()), Call.Lease(now))
      ensures Answer(cfg, old(View()), Call.Lease(now)) == if r.None? then Nil else Leased(r.value)
      ensures r.None? <==> old(ready) == []
      ensures r.Some? ==> && old(ready) == ready + [r.value] && processing == [r.value] + old(processing)
                          && lease == old(lease)[r.value := now + cfg.leaseTimeout]
    {
      LeaseRun(cfg, View(), Call.Lease(now));
      if ready == [] {
        return None;
      }
      var item := ready[|ready| - 1];
      ready, processing := ready[..|ready| - 1], [item] + processing;
      lease := lease[item := now + cfg.leaseTimeout];
      return Some(item);
    }

    /** The dead check of an admission: an entry that no longer blocks is dropped. */
    method Forgive(url: Url, now: int) returns (blocked: bool)
      modifies this
      ensures blocked == (url in old(dead) && old(dead)[url].Blocks(now))
      ensures View() == if blocked then old(View()) else Forgiven(old(View()), url)
    {
      blocked := url in dead && dead[url].Blocks(now);
      if !blocked {
        dead := dead - {url};
      }
    }

    /** LPUSH first, then BF.ADD, then exact-member rollback if the filter already had the URL. */
    method ClaimOrRollback(url: Url, bloomHit: bool) returns (added: bool)
      modifies this
      ensures added == (url !in old(claimed) && !bloomHit)
      ensures var s := old(View());
              View() == if added then Admitted(s, url) else Refused(s, url)
    {
      RemoveHead(ready, Job(jobSeq + 1, url));
      Enqueue(url);
      added := url !in claimed && !bloomHit;
      claimed := claimed + {url};
      if !added {
        ready := Remove(ready, Job(jobSeq, url));
      }
    }

    /** bloomHit is a false positive of the filter. */
    method AdmitVideo(url: Url, now: int, bloomHit: bool) returns (r: Reply)
      requires cfg.Valid()
      modifies this
      ensures var c := Call.AdmitVideo(url, now, url !in old(claimed) && !bloomHit);
              View() == Exec(cfg, old(View()), c) && r == Answer(cfg, old(View()), c)
    {
      ghost var s, c := View(), Call.AdmitVideo(url, now, url !in claimed && !bloomHit);
      AdmitVideoEffect(cfg, s, c);
      var blocked := Forgive(url, now);
      if blocked {
        return Suppressed;
      }
      var added := ClaimOrRollback(url, bloomHit);
      return if added then New else Suppressed;
    }

    method AdmitListing(url: Url, now: int) returns (r: Reply)
      requires cfg.Valid()
      modifies this
      ensures View() == Exec(cfg, old(View()), Call.AdmitListing(url, now))
      ensures r == Answer(cfg, old(View()), Call.AdmitListing(url, now))
      ensures r == New || r == DueRevisit ==>
        && ready == [Job(old(jobSeq) + 1, url)] + old(ready) && (r == New <==> url !in old(next))
      ensures r == Suppressed || r == New || r == DueRevisit
      ensures r == Suppressed ==> ready == old(ready) && next == old(next)
    {
      AdmitListingRun(cfg, View(), Call.AdmitListing(url, now));
      ForgivenThenPending(View(), url);
      var blocked := Forgive(url, now);
      if blocked || (url in next && next[url] > now) {
        return Suppressed;
      }
      var known := url in next;
      EnqueuePending(url);
      return if known then DueRevisit else New;
    }

    /** The job first, then the PENDING mark. */
    method EnqueuePending(url: Url)
      modifies this
      ensures View() == Enqueued(old(View()), url).(next := old(next)[url := PENDING_SCORE])
    {
      Enqueue(url);
      next := next[url := PENDING_SCORE];
    }

    method SeedListing(url: Url)
      requires cfg.Valid()
      modifies this
      ensures View() == Exec(cfg, old(View()), Call.SeedListing(url))
    {
      if url !in next {
        Run1(View(), SetNext(url, 0));
        next := next[url := 0];
      }
    }

    method RunListingScheduler(now: int) returns (n: nat)
      requires cfg.Valid()
      modifies this
      ensures exists urls :: SchedulePage(cfg, old(View()), now, n, View(), urls)
    {
      var due := RangeByScore(next, now, cfg.batchLimit);
      n := 0;
      var i := 0;
      while i < |due|
        invariant i <= |due|
        invariant Run(View(), ScheduleScript(View(), due[i..], now)) == Exec(cfg, old(View()), Schedule(now, due))
        invariant n + ScheduleCount(View(), due[i..], now) == ScheduleCount(old(View()), due, now)
      {
        assert due[i..][0] == due[i] && due[i..][1..] == due[i + 1..];
        ScheduleOneRun(View(), due[i..], now);
        var admitted := ScheduleOne(due[i], now);
        if admitted {
          n := n + 1;
        }
        i := i + 1;
      }
      assert due[i..] == [];
      assert SchedulePage(cfg, old(View()), now, n, View(), due);
    }

    /** The body of the scheduler's loop. */
    method ScheduleOne(url: Url, now: int) returns (admitted: bool)
      modifies this
      ensures View() == ScheduledOne(old(View()), url, now)
      ensures admitted == !(url in old(dead) && old(dead)[url].Blocks(now))
    {
      if url in dead && dead[url].until == 0 {
        next := next - {url};
        return false;
      }
      if url in dead && dead[url].until > now {
        next := next[url := dead[url].until];
        return false;
      }
      dead := dead - {url};
      EnqueuePending(url);
      return true;
    }

    method Ack(j: Job) returns (r: Reply)
      requires cfg.Valid()
      modifies this
      ensures View() == Exec(cfg, old(View()), Call.Ack(j)) && r == Answer(cfg, old(View()), Call.Ack(j))
    {
      if j !in lease {
        return Stale;
      }
      AckRun(cfg, View(), Call.Ack(j));
      lease := lease - {j};
      Close(j);
      return Ok;
    }

    /** Give up the lease, then the barren count, the due time (which releases PENDING) and the dead entry. */
    method Reschedule(j: Job, b: nat, at: int)
      modifies this
      ensures View() == Rescheduled(old(View()), j, b, at)
    {
      lease := lease - {j};
      barren := barren[j.url := b];
      next := next[j.url := at];
      dead := dead - {j.url};
    }

    /** The revisit interval: the class's base doubled once per barren visit, capped. */
    method Interval(url: Url, b: nat) returns (ttl: int)
      ensures ttl == Min(BaseTtl(cfg, url) * Pow2(b), cfg.listingMaxTtl) == Ttl(cfg, url, b)
    {
      DoubledIsPower(BaseTtl(cfg, url), b);
      ttl := Doubled(BaseTtl(cfg, url), b);
      if ttl > cfg.listingMaxTtl {
        ttl := cfg.listingMaxTtl;
      }
    }

    method CompleteListing(j: Job, newChildren: nat, now: int) returns (r: Reply)
      requires cfg.Valid()
      modifies this
      ensures View() == Exec(cfg, old(View()), Call.CompleteListing(j, newChildren, now))
      ensures r == Answer(cfg, old(View()), Call.CompleteListing(j, newChildren, now))
    {
      if j !in lease {
        return Stale;
      }
      ghost var s := View();
      ghost var gb, at := CompleteShape(cfg, s, Call.CompleteListing(j, newChildren, now));
      var b := if newChildren > 0 then 0 else Get(barren, j.url) + 1;
      var ttl := Interval(j.url, b);
      assert b == gb && now + ttl == at;
      Reschedule(j, b, now + ttl);
      Close(j);
      assert View() == Closed(Rescheduled(s, j, gb, at), j);
      return Ok;
    }

    method Nack(j: Job) returns (r: Reply)
      requires cfg.Valid()
      modifies this
      ensures View() == Exec(cfg, old(View()), Call.Nack(j)) && r == Answer(cfg, old(View()), Call.Nack(j))
    {
      if j !in lease {
        return Stale;
      }
      NackRun(cfg, View(), Call.Nack(j));
      lease := lease - {j};
      Requeue(j);
      return Ok;
    }

    method Fail(j: Job, kind: FailClass, now: int) returns (r: Reply)
      requires cfg.Valid()
      modifies this
      ensures View() == Exec(cfg, old(View()), Call.Fail(j, kind, now))
      ensures r == Answer(cfg, old(View()), Call.Fail(j, kind, now))
    {
      if j !in lease {
        return Stale;
      }
      FailRun(cfg, View(), Call.Fail(j, kind, now));
      var tries := Get(attempts, j.url) + 1;
      var struck := CountFailure(j, kind);
      if kind.Strikeable? && struck >= cfg.maxStrikes {
        Bury(j, Dead(EXHAUSTED, QuarantineUntil(cfg, j.url, now)));
        return Died;
      }
      Postpone(j, now + Backoff(Ladder(cfg, kind), tries));
      return Delayed;
    }

    /** Give up the lease and bump the counters; returns the strikes of the URL. */
    method CountFailure(j: Job, kind: FailClass) returns (struck: nat)
      modifies this
      ensures View() == Struck(old(View()), j, kind) && struck == Strikes(old(View()), j.url, kind)
    {
      lease := lease - {j};
      attempts := attempts[j.url := Get(attempts, j.url) + 1];
      struck := Get(strikes, j.url);
      if kind.Strikeable? {
        struck := struck + 1;
        strikes := strikes[j.url := struck];
      }
    }

    method Postpone(j: Job, at: int)
      modifies this
      ensures View() == Postponed(old(View()), j, at)
    {
      jobSeq := jobSeq + 1;
      delayed := delayed[Job(jobSeq, j.url) := at];
      processing := Remove(processing, j);
    }

    method Terminal(j: Job, reason: string, now: int) returns (r: Reply)
      requires cfg.Valid()
      modifies this
      ensures View() == Exec(cfg, old(View()), Call.Terminal(j, reason, now))
      ensures r == Answer(cfg, old(View()), Call.Terminal(j, reason, now))
    {
      if j !in lease {
        return Stale;
      }
      TerminalRun(cfg, View(), Call.Terminal(j, reason, now));
      lease := lease - {j};
      Bury(j, Dead(reason, QuarantineUntil(cfg, j.url, now)));
      return Ok;
    }

    method Promote(now: int) returns (n: nat)
      requires cfg.Valid()
      modifies this
      ensures exists jobs :: IsRange(old(delayed), now, PROMOTE_LIMIT, jobs)
                             && View() == Exec(cfg, old(View()), Call.Promote(now, jobs)) && n == |jobs|
                             && Promotes(old(View()), jobs, View())
    {
      var due := RangeByScore(delayed, now, PROMOTE_LIMIT);
      var i := 0;
      while i < |due|
        invariant i <= |due|
        invariant Run(View(), PromoteScript(View(), due[i..])) == Exec(cfg, old(View()), Call.Promote(now, due))
      {
        assert due[i..][0] == due[i] && due[i..][1..] == due[i + 1..];
        PromoteRun(View(), due[i..]);
        Enqueue(due[i].url);
        delayed := delayed - {due[i]};
        i := i + 1;
      }
      n := |due|;
      PromoteLaw(cfg, old(View()), now, due, View(), Count(n));
    }

    method Reap(now: int) returns (n: nat)
      requires cfg.Valid()
      modifies this
      ensures exists jobs :: IsRange(old(lease), now, REAP_LIMIT, jobs)
                             && View() == Exec(cfg, old(View()), Call.Reap(now, jobs))
                             && Count(n) == Answer(cfg, old(View()), Call.Reap(now, jobs))
    {
      var expired := RangeByScore(lease, now, REAP_LIMIT);
      ReapExec(cfg, View(), now, expired);
      n := ReapAll(expired);
    }

    method ReapAll(expired: seq<Job>) returns (n: nat)
      modifies this
      ensures View() == Run(old(View()), ReapScript(old(View()), expired)) && n == ReapCount(old(View()), expired)
    {
      n := 0;
      var i := 0;
      while i < |expired|
        invariant i <= |expired|
        invariant Run(View(), ReapScript(View(), expired[i..])) == Run(old(View()), ReapScript(old(View()), expired))
        invariant n + ReapCount(View(), expired[i..]) == ReapCount(old(View()), expired)
      {
        assert expired[i..][0] == expired[i] && expired[i..][1..] == expired[i + 1..];
        ReapOneRun(View(), expired[i..]);
        var claimedIt := ReapOne(expired[i]);
        if claimedIt {
          n := n + 1;
        }
        i := i + 1;
      }
    }

    /** The body of the reaper's loop: claim the lease, then requeue. */
    method ReapOne(item: Job) returns (claimedIt: bool)
      modifies this
      ensures claimedIt == (item in old(lease))
      ensures View() == if claimedIt then Reaped(old(View()), item) else old(View())
    {
      claimedIt := item in lease;
      if claimedIt {
        lease := lease - {item};
        Requeue(item);
      }
    }

    method Sweep() returns (n: nat)
      requires cfg.Valid()
      modifies this
      ensures View() == Exec(cfg, old(View()), Call.Sweep) && Count(n) == Answer(cfg, old(View()), Call.Sweep)
    {
      var items := if |processing| <= SWEEP_LIMIT then processing else processing[|processing| - SWEEP_LIMIT..];
      SweepExec(cfg, View(), items);
      n := SweepAll(items);
    }

    method SweepAll(items: seq<Job>) returns (n: nat)
      modifies this
      ensures View() == Run(old(View()), SweepScript(old(View()), items)) && n == SweepCount(old(View()), items)
    {
      n := 0;
      var i := 0;
      while i < |items|
        invariant i <= |items|
        invariant Run(View(), SweepScript(View(), items[i..])) == Run(old(View()), SweepScript(old(View()), items))
        invariant n + SweepCount(View(), items[i..]) == SweepCount(old(View()), items)
      {
        assert items[i..][0] == items[i] && items[i..][1..] == items[i + 1..];
        SweepOneRun(View(), items[i..]);
        var orphan := SweepOne(items[i]);
        if orphan {
          n := n + 1;
        }
        i := i + 1;
      }
    }

    /** The body of the sweeper's loop: requeue an entry without a lease. */
    method SweepOne(item: Job) returns (orphan: bool)
      modifies this
      ensures orphan == (item !in old(lease))
      ensures View() == if orphan then Swept(old(View()), item) else old(View())
    {
      orphan := item !in lease;
      if orphan {
        Requeue(item);
      }
    }

    /** The scheduler's tick: drain full pages until one comes back short, reading the clock for each. It always
        ends, with no listing due at the last reading; at a constant clock it has admitted each listing that
        was due exactly once. */
    method DrainListings(clock: nat -> int) returns (total: nat, pages: nat)
      requires cfg.Valid() && Exact(cfg, View()) && forall k :: clock(k) < PENDING_SCORE
      modifies this
      ensures pages > 0 && Exact(cfg, View()) && DueListings(View(), clock(pages - 1)) == {}
      ensures total == |Waiting(old(View()))| - |Waiting(View())|
      ensures (forall k :: clock(k) == clock(0)) ==> total == |DueListings(old(View()), clock(0))|
    {
      total, pages := 0, 0;
      ghost var now, constant := clock(0), forall k :: clock(k) == clock(0);
      while true
        invariant Exact(cfg, View())
        invariant total == |Waiting(old(View()))| - |Waiting(View())|
        invariant constant ==> total + |DueListings(View(), now)| == |DueListings(old(View()), now)|
        decreases |Waiting(View())|
      {
        ghost var s := View();
        var t := clock(pages);
        assert constant ==> t == now;
        var n := RunListingScheduler(t);
        DrainStep(cfg, s, t, n, View());
        total, pages := total + n, pages + 1;
        if n < cfg.batchLimit {
          return;
        }
      }
    }
  }

  lemma ForgivenThenPending(s: State, u: Url)
    ensures Enqueued(Forgiven(s, u), u).(next := Forgiven(s, u).next[u := PENDING_SCORE]) == Scheduled(s, u)
  {
  }

  ghost predicate SchedulePage(cfg: Config, s: State, now: int, n: nat, t: State, urls: seq<Url>)
    requires cfg.Valid()
  {
    && IsRange(s.next, now, cfg.batchLimit, urls)
    && t == Exec(cfg, s, Schedule(now, urls)) && Count(n) == Answer(cfg, s, Schedule(now, urls))
  }

  /** One page of the drain loop. */
  lemma DrainStep(cfg: Config, s: State, now: int, n: nat, t: State)
    requires cfg.Valid() && Exact(cfg, s) && now < PENDING_SCORE
    requires exists urls :: SchedulePage(cfg, s, now, n, t, urls)
    ensures Exact(cfg, t) && |DueListings(t, now)| == |DueListings(s, now)| - n && |Waiting(t)| == |Waiting(s)| - n
    ensures n < cfg.batchLimit ==> DueListings(t, now) == {}
  {
    var urls :| SchedulePage(cfg, s, now, n, t, urls);
    ScheduleProgress(cfg, s, now, urls, t);
    ScheduleWaits(cfg, s, now, urls, t);
  }
}
