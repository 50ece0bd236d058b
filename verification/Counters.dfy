/** The failure, strike and barren counters, tied to the history of calls alone. */
module Counters {
  import opened Keyspace
  import opened Scripts
  import opened CrashSafety
  import opened Effects
  import opened Exactness
  import opened Frames
  import opened Runs

  predicate Counts(w: Write) {
    w.SetAttempts? || w.RemAttempts? || w.SetStrikes? || w.RemStrikes? || w.SetBarren? || w.RemBarren?
  }

  predicate CountsNothing(ws: Writes) {
    match ws
    case Done => true
    case Do(w, rest) => !Counts(w) && CountsNothing(rest)
  }

  ghost predicate SameCounters(s: State, t: State) {
    t.attempts == s.attempts && t.strikes == s.strikes && t.barren == s.barren
  }

  lemma KeepsAttempts(s: State, w: Write, t: State)
    requires !Counts(w) && t == Apply(s, w)
    ensures t.attempts == s.attempts
  {
  }

  lemma KeepsStrikes(s: State, w: Write, t: State)
    requires !Counts(w) && t == Apply(s, w)
    ensures t.strikes == s.strikes
  {
  }

  lemma KeepsBarren(s: State, w: Write, t: State)
    requires !Counts(w) && t == Apply(s, w)
    ensures t.barren == s.barren
  {
  }

  lemma NoCountWrite(s: State, w: Write, t: State)
    requires !Counts(w) && t == Apply(s, w)
    ensures SameCounters(s, t)
  {
    KeepsAttempts(s, w, t);
    KeepsStrikes(s, w, t);
    KeepsBarren(s, w, t);
  }

  lemma {:induction false} NoCountRun(s: State, ws: Writes)
    requires CountsNothing(ws)
    ensures SameCounters(s, Run(s, ws))
    decreases ws
  {
    if ws.Do? {
      var t := Apply(s, ws.first);
      NoCountWrite(s, ws.first, t);
      NoCountRun(t, ws.rest);
    }
  }

  lemma {:induction false} ScheduleCountsNothing(s: State, due: seq<Url>, now: int)
    ensures CountsNothing(ScheduleScript(s, due, now))
    decreases |due|
  {
    if due != [] {
      var u := due[0];
      if u in s.dead && s.dead[u].until == 0 {
        ScheduleCountsNothing(Apply(s, RemNext(u)), due[1..], now);
      } else if u in s.dead && s.dead[u].until > now {
        ScheduleCountsNothing(Apply(s, SetNext(u, s.dead[u].until)), due[1..], now);
      } else {
        ScheduleCountsNothing(Scheduled(s, u), due[1..], now);
        var rest := Do(SetNext(u, PENDING_SCORE), ScheduleScript(Scheduled(s, u), due[1..], now));
        assert CountsNothing(rest);
        assert CountsNothing(Do(PushReady(Fresh(s, u)), rest));
      }
    }
  }

  lemma {:induction false} PromoteCountsNothing(s: State, due: seq<Job>)
    ensures CountsNothing(PromoteScript(s, due))
    decreases |due|
  {
    if due != [] {
      PromoteCountsNothing(Promoted(s, due[0]), due[1..]);
      assert CountsNothing(Do(RemDelayed(due[0]), PromoteScript(Promoted(s, due[0]), due[1..])));
    }
  }

  lemma {:induction false} ReapCountsNothing(s: State, expired: seq<Job>)
    ensures CountsNothing(ReapScript(s, expired))
    decreases |expired|
  {
    if expired != [] {
      var j := expired[0];
      ReapCountsNothing(s, expired[1..]);
      ReapCountsNothing(Reaped(s, j), expired[1..]);
      var rest := Do(RemProcessing(j), ReapScript(Reaped(s, j), expired[1..]));
      assert CountsNothing(rest);
      assert CountsNothing(Do(Incr, Do(PushReady(Fresh(s, j.url)), rest)));
    }
  }

  lemma {:induction false} SweepCountsNothing(s: State, items: seq<Job>)
    ensures CountsNothing(SweepScript(s, items))
    decreases |items|
  {
    if items != [] {
      SweepCountsNothing(s, items[1..]);
      SweepCountsNothing(Swept(s, items[0]), items[1..]);
      assert CountsNothing(Do(RemProcessing(items[0]), SweepScript(Swept(s, items[0]), items[1..])));
    }
  }

  lemma AdmitCountsNothing(s: State, u: Url, now: int, added: bool)
    ensures CountsNothing(AdmitVideoScript(s, u, now, added)) && CountsNothing(AdmitListingScript(s, u, now))
  {
    var j := Fresh(s, u);
    var rest := Do(Claim(u), if added then Done else Do(RemReady(j), Done));
    assert CountsNothing(rest);
    assert CountsNothing(Do(Incr, Do(PushReady(j), rest)));
    assert CountsNothing(Do(PushReady(j), Do(SetNext(u, PENDING_SCORE), Done)));
    assert CountsNothing(Do(Incr, Do(PushReady(j), Do(SetNext(u, PENDING_SCORE), Done))));
  }

  /** Only a resolution with a live lease touches a counter, and Nack does not. */
  lemma OthersCountNothing(cfg: Config, s: State, c: Call)
    requires cfg.Valid() && (!IsResolution(c) || c.Nack? || c.job !in s.lease)
    ensures SameCounters(s, Exec(cfg, s, c))
  {
    assert CountsNothing(Script(cfg, s, c)) by {
      match c
      case AdmitVideo(u, now, added) => AdmitCountsNothing(s, u, now, added);
      case AdmitListing(u, now) => AdmitCountsNothing(s, u, now, true);
      case Schedule(now, urls) => ScheduleCountsNothing(s, urls, now);
      case Nack(j) =>
        assert CountsNothing(Do(PushReady(Fresh(s, j.url)), Do(RemProcessing(j), Done)));
        assert CountsNothing(Do(Incr, Do(PushReady(Fresh(s, j.url)), Do(RemProcessing(j), Done))));
      case Promote(_, jobs) => PromoteCountsNothing(s, jobs);
      case Reap(_, jobs) => ReapCountsNothing(s, jobs);
      case Sweep => SweepCountsNothing(s, SweepItems(s));
      case _ =>
    }
    NoCountRun(s, Script(cfg, s, c));
  }

  // ---- one call ----

  /** Call i resolves a job of u and holds its lease. */
  ghost predicate Resolves(tr: Trace, i: nat, u: Url)
    requires i < |tr.calls| && i < |tr.states|
  {
    IsResolution(tr.calls[i]) && tr.calls[i].job.url == u && tr.calls[i].job in tr.states[i].lease
  }

  lemma FrameCounters(s: State, t: State, u: Url)
    requires SameFacts(s, t, u)
    ensures Get(t.attempts, u) == Get(s.attempts, u) && Get(t.strikes, u) == Get(s.strikes, u)
    ensures Get(t.barren, u) == Get(s.barren, u)
  {
  }

  lemma AckCounters(cfg: Config, s: State, c: Call)
    requires cfg.Valid() && c.Ack? && c.job in s.lease
    ensures var t := Exec(cfg, s, c);
            Get(t.attempts, c.job.url) == 0 == Get(t.strikes, c.job.url) && t.barren == s.barren
  {
    AckRun(cfg, s, c);
  }

  lemma CompleteCounters(cfg: Config, s: State, c: Call)
    requires cfg.Valid() && c.CompleteListing? && c.job in s.lease
    ensures var t := Exec(cfg, s, c);
            && Get(t.attempts, c.job.url) == 0 == Get(t.strikes, c.job.url)
            && Get(t.barren, c.job.url) == Barren(s, c.job.url, c.newChildren)
  {
    var b, at := CompleteShape(cfg, s, c);
    assert Rescheduled(s, c.job, b, at).barren == s.barren[c.job.url := b];
  }

  lemma TerminalCounters(cfg: Config, s: State, c: Call)
    requires cfg.Valid() && c.Terminal? && c.job in s.lease
    ensures var t := Exec(cfg, s, c);
            Get(t.attempts, c.job.url) == 0 == Get(t.strikes, c.job.url) && t.barren == s.barren
  {
    TerminalRun(cfg, s, c);
  }

  lemma FailCounters(cfg: Config, s: State, c: Call)
    requires cfg.Valid() && c.Fail? && c.job in s.lease
    ensures var t := Exec(cfg, s, c);
            && t.barren == s.barren
            && Get(t.attempts, c.job.url)
               == (if Dies(cfg, s, c.job.url, c.kind) then 0 else Get(s.attempts, c.job.url) + 1)
            && Get(t.strikes, c.job.url)
               == (if Dies(cfg, s, c.job.url, c.kind) then 0 else Strikes(s, c.job.url, c.kind))
  {
    FailRun(cfg, s, c);
  }

  /** What a resolution with a live lease leaves in the counters of its URL. */
  lemma ResolutionCounters(cfg: Config, s: State, c: Call)
    requires cfg.Valid() && IsResolution(c) && !c.Nack? && c.job in s.lease
    ensures var t, u := Exec(cfg, s, c), c.job.url;
            && Get(t.attempts, u) == (if c.Fail? && !Dies(cfg, s, u, c.kind) then Get(s.attempts, u) + 1 else 0)
            && Get(t.strikes, u) == (if c.Fail? && !Dies(cfg, s, u, c.kind) then Strikes(s, u, c.kind) else 0)
            && Get(t.barren, u) == (if c.CompleteListing? then Barren(s, u, c.newChildren) else Get(s.barren, u))
  {
    match c
    case Ack(_) => AckCounters(cfg, s, c);
    case CompleteListing(_, _, _) => CompleteCounters(cfg, s, c);
    case Fail(_, _, _) => FailCounters(cfg, s, c);
    case Terminal(_, _, _) => TerminalCounters(cfg, s, c);
  }

  /** c resolves a job of u whose lease is live, and does not merely give it back. */
  predicate Touches(s: State, c: Call, u: Url) {
    IsResolution(c) && !c.Nack? && c.job.url == u && c.job in s.lease
  }

  /** One call, seen from one URL. */
  lemma UrlStep(cfg: Config, s: State, c: Call, u: Url, t: State)
    requires cfg.Valid() && t == Exec(cfg, s, c)
    ensures !Touches(s, c, u) ==> Get(t.attempts, u) == Get(s.attempts, u) && Get(t.strikes, u) == Get(s.strikes, u)
                                  && Get(t.barren, u) == Get(s.barren, u)
    ensures Touches(s, c, u) ==>
      && Get(t.attempts, u) == (if c.Fail? && !Dies(cfg, s, u, c.kind) then Get(s.attempts, u) + 1 else 0)
      && Get(t.strikes, u) == (if c.Fail? && !Dies(cfg, s, u, c.kind) then Strikes(s, u, c.kind) else 0)
      && Get(t.barren, u) == (if c.CompleteListing? then Barren(s, u, c.newChildren) else Get(s.barren, u))
  {
    if Touches(s, c, u) {
      ResolutionCounters(cfg, s, c);
    } else if !IsResolution(c) || c.Nack? || c.job !in s.lease {
      OthersCountNothing(cfg, s, c);
    } else {
      CallFrame(cfg, s, c, u);
      FrameCounters(s, t, u);
    }
  }

  // ---- the counters as numbers of calls ----

  /** How many positions from r to n satisfy p. */
  ghost function Number(p: int -> bool, r: nat, n: nat): nat {
    if n <= r then 0 else Number(p, r, n - 1) + if p(n - 1) then 1 else 0
  }

  ghost predicate FailsAt(tr: Trace, u: Url, i: int) {
    0 <= i < |tr.calls| && i < |tr.states| && Resolves(tr, i, u) && tr.calls[i].Fail?
  }

  ghost predicate StrikesAt(tr: Trace, u: Url, i: int) {
    FailsAt(tr, u, i) && tr.calls[i].kind.Strikeable?
  }

  /** Call i ends the count for u: an Ack, completion or terminal page that takes effect, or a failure that is
      answered DEAD. */
  ghost predicate ResetsAt(cfg: Config, tr: Trace, u: Url, i: int)
    requires cfg.Valid()
  {
    && 0 <= i < |tr.calls| && i < |tr.states| && Resolves(tr, i, u) && !tr.calls[i].Nack?
    && (tr.calls[i].Fail? ==> Answer(cfg, tr.states[i], tr.calls[i]) == Died)
  }

  ghost predicate BarrenAt(tr: Trace, u: Url, i: int) {
    0 <= i < |tr.calls| && i < |tr.states| && Resolves(tr, i, u) && tr.calls[i].CompleteListing?
    && tr.calls[i].newChildren == 0
  }

  ghost predicate FruitfulAt(tr: Trace, u: Url, i: int) {
    0 <= i < |tr.calls| && i < |tr.states| && Resolves(tr, i, u) && tr.calls[i].CompleteListing?
    && tr.calls[i].newChildren > 0
  }

  /** r is just after the last position below n at which p holds, or 0. */
  ghost predicate IsSince(p: int -> bool, r: nat, n: nat) {
    r <= n && (r > 0 ==> p(r - 1)) && forall i :: r <= i < n ==> !p(i)
  }

  lemma CallCounts(cfg: Config, tr: Trace, u: Url, i: nat)
    requires IsTrace(cfg, tr) && i < |tr.calls|
    ensures var s, t := tr.states[i], tr.states[i + 1];
            if ResetsAt(cfg, tr, u, i) then Get(t.attempts, u) == 0 && Get(t.strikes, u) == 0
            else && Get(t.attempts, u) == Get(s.attempts, u) + (if FailsAt(tr, u, i) then 1 else 0)
                 && Get(t.strikes, u) == Get(s.strikes, u) + if StrikesAt(tr, u, i) then 1 else 0
  {
    UrlStep(cfg, tr.states[i], tr.calls[i], u, tr.states[i + 1]);
  }

  lemma CallBarren(cfg: Config, tr: Trace, u: Url, i: nat)
    requires IsTrace(cfg, tr) && i < |tr.calls|
    ensures var s, t := tr.states[i], tr.states[i + 1];
            if FruitfulAt(tr, u, i) then Get(t.barren, u) == 0
            else Get(t.barren, u) == Get(s.barren, u) + if BarrenAt(tr, u, i) then 1 else 0
  {
    UrlStep(cfg, tr.states[i], tr.calls[i], u, tr.states[i + 1]);
  }

  /** What a counter is worth that starts at first, goes up at q and back to 0 at p, the last time just before r. */
  ghost function Worth(first: nat, q: int -> bool, r: nat, n: nat): nat {
    (if r == 0 then first else 0) + Number(q, r, n)
  }

  /** The position after the last one below n at which p holds. */
  ghost function Since(p: int -> bool, n: nat): (r: nat)
    ensures IsSince(p, r, n)
  {
    if n == 0 then 0 else if p(n - 1) then n else Since(p, n - 1)
  }

  /** A counter that p resets and q advances is worth the number of q since the last p. */
  lemma {:induction false} CounterClosed(a: seq<nat>, p: int -> bool, q: int -> bool, n: nat)
    requires n < |a| && forall i :: 0 <= i < n ==> a[i + 1] == if p(i) then 0 else a[i] + if q(i) then 1 else 0
    ensures a[n] == Worth(a[0], q, Since(p, n), n)
  {
    if n > 0 {
      CounterClosed(a, p, q, n - 1);
    }
  }

  ghost function Resets(cfg: Config, tr: Trace, u: Url): int -> bool
    requires cfg.Valid()
  {
    i => ResetsAt(cfg, tr, u, i)
  }

  ghost function FailingOnes(tr: Trace, u: Url): int -> bool {
    i => FailsAt(tr, u, i)
  }

  ghost function StrikeableOnes(tr: Trace, u: Url): int -> bool {
    i => StrikesAt(tr, u, i)
  }

  ghost function Fruitful(tr: Trace, u: Url): int -> bool {
    i => FruitfulAt(tr, u, i)
  }

  ghost function BarrenOnes(tr: Trace, u: Url): int -> bool {
    i => BarrenAt(tr, u, i)
  }

  lemma AttemptsClosed(cfg: Config, tr: Trace, u: Url, n: nat)
    requires IsTrace(cfg, tr) && n <= |tr.calls|
    ensures var r := Since(Resets(cfg, tr, u), n);
            Get(tr.states[n].attempts, u) == Worth(Get(tr.states[0].attempts, u), FailingOnes(tr, u), r, n)
  {
    var a := seq(|tr.states|, i requires 0 <= i < |tr.states| => Get(tr.states[i].attempts, u));
    var p, q := Resets(cfg, tr, u), FailingOnes(tr, u);
    forall i | 0 <= i < n
      ensures a[i + 1] == if p(i) then 0 else a[i] + if q(i) then 1 else 0
    {
      CallCounts(cfg, tr, u, i);
    }
    CounterClosed(a, p, q, n);
  }

  lemma StrikesClosed(cfg: Config, tr: Trace, u: Url, n: nat)
    requires IsTrace(cfg, tr) && n <= |tr.calls|
    ensures var r := Since(Resets(cfg, tr, u), n);
            Get(tr.states[n].strikes, u) == Worth(Get(tr.states[0].strikes, u), StrikeableOnes(tr, u), r, n)
  {
    var a := seq(|tr.states|, i requires 0 <= i < |tr.states| => Get(tr.states[i].strikes, u));
    var p, q := Resets(cfg, tr, u), StrikeableOnes(tr, u);
    forall i | 0 <= i < n
      ensures a[i + 1] == if p(i) then 0 else a[i] + if q(i) then 1 else 0
    {
      CallCounts(cfg, tr, u, i);
    }
    CounterClosed(a, p, q, n);
  }

  /** In every reachable state attempts and strikes are the numbers of failures and strikeable failures since
      the last reset, counted on from what the run started with if there was none. */
  lemma CountsSinceReset(cfg: Config, tr: Trace, u: Url, n: nat) returns (r: nat)
    requires IsTrace(cfg, tr) && n <= |tr.calls|
    ensures IsSince(Resets(cfg, tr, u), r, n)
    ensures Get(tr.states[n].attempts, u) == Worth(Get(tr.states[0].attempts, u), FailingOnes(tr, u), r, n)
    ensures Get(tr.states[n].strikes, u) == Worth(Get(tr.states[0].strikes, u), StrikeableOnes(tr, u), r, n)
  {
    AttemptsClosed(cfg, tr, u, n);
    StrikesClosed(cfg, tr, u, n);
    r := Since(Resets(cfg, tr, u), n);
  }

  /** The barren count is the number of completions without New children since the last one with some. */
  lemma BarrenSinceFruit(cfg: Config, tr: Trace, u: Url, n: nat) returns (r: nat)
    requires IsTrace(cfg, tr) && n <= |tr.calls|
    ensures IsSince(Fruitful(tr, u), r, n)
    ensures Get(tr.states[n].barren, u) == Worth(Get(tr.states[0].barren, u), BarrenOnes(tr, u), r, n)
  {
    var a := seq(|tr.states|, i requires 0 <= i < |tr.states| => Get(tr.states[i].barren, u));
    var p, q := Fruitful(tr, u), BarrenOnes(tr, u);
    forall i | 0 <= i < n
      ensures a[i + 1] == if p(i) then 0 else a[i] + if q(i) then 1 else 0
    {
      CallBarren(cfg, tr, u, i);
    }
    CounterClosed(a, p, q, n);
    r := Since(p, n);
  }

  lemma CountersBounded(cfg: Config, s: State, u: Url)
    requires cfg.Valid() && Exact(cfg, s)
    ensures Get(s.strikes, u) <= Get(s.attempts, u) && Get(s.strikes, u) < cfg.maxStrikes
  {
  }

  lemma DeathAtLimit(cfg: Config, s: State, c: Call, fails: int, strikes: int)
    requires cfg.Valid() && c.Fail? && c.job in s.lease
    requires Get(s.attempts, c.job.url) == fails && Get(s.strikes, c.job.url) == strikes < cfg.maxStrikes
    ensures Answer(cfg, s, c) == Died <==> c.kind.Strikeable? && strikes + 1 == cfg.maxStrikes
    ensures RetryAt(cfg, s, c.job.url, c.kind, c.now)
            == c.now + Ladder(cfg, c.kind)[Min(fails + 1, |Ladder(cfg, c.kind)|) - 1]
  {
  }

  lemma ReachableCountersBounded(cfg: Config, tr: Trace, i: nat, u: Url)
    requires IsTrace(cfg, tr) && i <= |tr.calls|
    ensures var s := tr.states[i]; Get(s.strikes, u) <= Get(s.attempts, u) && Get(s.strikes, u) < cfg.maxStrikes
  {
    TraceExact(cfg, tr, i);
    CountersBounded(cfg, tr.states[i], u);
  }

  /** A failure kills its URL exactly when it is the maxStrikes-th strikeable one since the last reset; otherwise
      it is retried after the ladder entry that the number of all failures since then selects. */
  lemma StrikeAccounting(cfg: Config, tr: Trace, i: nat, s: State, c: Call)
    returns (r: nat, fails: nat, strikes: nat)
    requires IsTrace(cfg, tr) && i < |tr.calls| && s == tr.states[i] && c == tr.calls[i]
    requires c.Fail? && c.job in s.lease
    ensures IsSince(Resets(cfg, tr, c.job.url), r, i)
    ensures fails == Worth(Get(tr.states[0].attempts, c.job.url), FailingOnes(tr, c.job.url), r, i)
    ensures strikes == Worth(Get(tr.states[0].strikes, c.job.url), StrikeableOnes(tr, c.job.url), r, i)
    ensures strikes <= fails && strikes < cfg.maxStrikes
    ensures Answer(cfg, s, c) == Died <==> c.kind.Strikeable? && strikes + 1 == cfg.maxStrikes
    ensures RetryAt(cfg, s, c.job.url, c.kind, c.now)
            == c.now + Ladder(cfg, c.kind)[Min(fails + 1, |Ladder(cfg, c.kind)|) - 1]
  {
    r := CountsSinceReset(cfg, tr, c.job.url, i);
    ReachableCountersBounded(cfg, tr, i, c.job.url);
    fails, strikes := Get(s.attempts, c.job.url), Get(s.strikes, c.job.url);
    DeathAtLimit(cfg, s, c, fails, strikes);
  }

  // ---- the revisit interval ----

  lemma {:induction false} DoubledGrows(base: int, m: nat, n: nat)
    requires base > 0 && m <= n
    ensures Doubled(base, m) <= Doubled(base, n)
    decreases n
  {
    if m < n {
      DoubledGrows(base, m, n - 1);
      DoubledPositive(base, n - 1);
    }
  }

  lemma CompleteNext(cfg: Config, s: State, c: Call)
    requires cfg.Valid() && c.CompleteListing? && c.job in s.lease && cfg.ClockOk(c.now)
    ensures var u, t, b := c.job.url, Exec(cfg, s, c), Barren(s, c.job.url, c.newChildren);
            && u in t.next
            && t.next[u] == c.now + Min(BaseTtl(cfg, u) * Pow2(b), cfg.listingMaxTtl)
            && c.now < t.next[u] < PENDING_SCORE
  {
    var b, at := CompleteShape(cfg, s, c);
    DoubledIsPower(BaseTtl(cfg, c.job.url), b);
    TtlRange(cfg, c.job.url, b);
    assert Rescheduled(s, c.job, b, at).next == s.next[c.job.url := at];
  }

  /** A completed listing is due again after min(base * 2^b, max), b being the number of completions without
      New children since the last one with some, this one included; a New child makes b 0. */
  lemma RevisitTtl(cfg: Config, tr: Trace, i: nat, s: State, c: Call, t: State) returns (r: nat, b: nat)
    requires IsTrace(cfg, tr) && i < |tr.calls| && s == tr.states[i] && c == tr.calls[i] && t == tr.states[i + 1]
    requires c.CompleteListing? && c.job in s.lease
    ensures IsSince(Fruitful(tr, c.job.url), r, i + 1)
    ensures b == Worth(Get(tr.states[0].barren, c.job.url), BarrenOnes(tr, c.job.url), r, i + 1)
    ensures c.newChildren > 0 ==> b == 0
    ensures c.job.url in t.next && c.now < t.next[c.job.url] < PENDING_SCORE
    ensures t.next[c.job.url] == c.now + Min(BaseTtl(cfg, c.job.url) * Pow2(b), cfg.listingMaxTtl)
  {
    r := BarrenSinceFruit(cfg, tr, c.job.url, i + 1);
    b := Get(t.barren, c.job.url);
    CompleteCounters(cfg, s, c);
    CompleteNext(cfg, s, c);
  }

  /** More barren visits never shorten the interval, and at the cap it stays there. */
  lemma TtlMonotone(cfg: Config, u: Url, m: nat, n: nat)
    requires cfg.Valid() && m <= n
    ensures Ttl(cfg, u, m) <= Ttl(cfg, u, n)
    ensures Ttl(cfg, u, m) == cfg.listingMaxTtl ==> Ttl(cfg, u, n) == cfg.listingMaxTtl
  {
    DoubledGrows(BaseTtl(cfg, u), m, n);
  }
}
