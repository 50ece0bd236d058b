/** The twelve Lua scripts and ZADD NX of SeedListing, each as the list of writes it issues from a
    given keyspace. Reads happen inside the function; a loop threads the state its writes produce. */
module Scripts {
  import opened Keyspace

  const PROMOTE_LIMIT: nat := 100
  const REAP_LIMIT: nat := 100
  const SWEEP_LIMIT: nat := 100

  const EXHAUSTED: string := "strikes_exhausted"

  datatype FailClass = RateLimited | Strikeable

  /** A call of the frontier. Clock readings, Bloom answers and the order among equal scores are parameters. */
  datatype Call =
    | Lease(now: int)
    | AdmitVideo(url: Url, now: int, added: bool)
    | AdmitListing(url: Url, now: int)
    | SeedListing(url: Url)
    | Schedule(now: int, urls: seq<Url>)
    | Ack(job: Job)
    | CompleteListing(job: Job, newChildren: nat, now: int)
    | Nack(job: Job)
    | Fail(job: Job, kind: FailClass, now: int)
    | Terminal(job: Job, reason: string, now: int)
    | Promote(now: int, jobs: seq<Job>)
    | Reap(now: int, jobs: seq<Job>)
    | Sweep

  datatype Reply =
    | Nil                 // nothing to lease
    | Leased(job: Job)
    | Suppressed
    | New
    | DueRevisit
    | Ok
    | Stale
    | Delayed
    | Died
    | Count(n: nat)

  function Get(m: map<Url, nat>, u: Url): nat {
    if u in m then m[u] else 0
  }

  /** base * 2^n. */
  function Doubled(base: int, n: nat): int {
    if n == 0 then base else 2 * Doubled(base, n - 1)
  }

  function Pow2(n: nat): nat {
    if n == 0 then 1 else 2 * Pow2(n - 1)
  }

  lemma {:induction false} DoubledIsPower(base: int, n: nat)
    ensures Doubled(base, n) == base * Pow2(n)
  {
    if n > 0 {
      DoubledIsPower(base, n - 1);
    }
  }

  lemma {:induction false} Pow2Law(m: nat, n: nat)
    ensures Pow2(1) == 2 && Pow2(m + n) == Pow2(m) * Pow2(n)
  {
    if m > 0 {
      Pow2Law(m - 1, n);
      assert Pow2(m + n) == 2 * (Pow2(m - 1) * Pow2(n));
    }
  }

  function Min(a: int, b: int): int {
    if a <= b then a else b
  }

  /** The lease, attempt and strike bookkeeping shared by every resolution. */
  predicate IsResolution(c: Call) {
    c.Ack? || c.CompleteListing? || c.Nack? || c.Fail? || c.Terminal?
  }

  // ---- parameters computed by the Go methods ----

  /** quarantineUntil, and untilFor followed by unixOrZero. */
  function QuarantineUntil(cfg: Config, url: Url, now: int): int {
    if cfg.IsVideo(url) then 0 else now + cfg.quarantine
  }

  function BaseTtl(cfg: Config, url: Url): int {
    if cfg.classify(url).Seed? then cfg.seedTtl else cfg.listingBaseTtl
  }

  function Ladder(cfg: Config, kind: FailClass): seq<int> {
    if kind.Strikeable? then cfg.strikeBackoff else cfg.rateLimitBackoff
  }

  /** ARGV[7 + i] with i = min(attempts, n). */
  function Backoff(ladder: seq<int>, attempts: nat): int
    requires ladder != [] && attempts >= 1
  {
    ladder[Min(attempts, |ladder|) - 1]
  }

  function Barren(s: State, url: Url, newChildren: nat): nat {
    if newChildren > 0 then 0 else Get(s.barren, url) + 1
  }

  function Ttl(cfg: Config, url: Url, barren: nat): int {
    Min(Doubled(BaseTtl(cfg, url), barren), cfg.listingMaxTtl)
  }

  function Strikes(s: State, url: Url, kind: FailClass): nat {
    Get(s.strikes, url) + if kind.Strikeable? then 1 else 0
  }

  predicate Dies(cfg: Config, s: State, url: Url, kind: FailClass) {
    kind.Strikeable? && Strikes(s, url, kind) >= cfg.maxStrikes
  }

  // ---- fragments ----

  /** HDEL of a dead entry that no longer blocks. */
  function Forgive(s: State, u: Url, rest: Writes): Writes {
    if u in s.dead then Do(RemDead(u), rest) else rest
  }

  function Forgiven(s: State, u: Url): State {
    s.(dead := s.dead - {u})
  }

  lemma ForgivenAbsent(s: State, u: Url)
    requires u !in s.dead
    ensures Forgiven(s, u) == s
  {
    assert s.dead - {u} == s.dead;
  }

  function Fresh(s: State, u: Url): Job {
    Job(s.jobSeq + 1, u)
  }

  function Enqueued(s: State, u: Url): State {
    s.(jobSeq := s.jobSeq + 1, ready := [Fresh(s, u)] + s.ready)
  }

  /** Quarantine or burial: listing:next before dead, dead before the processing entry goes. */
  function Bury(j: Job, d: Dead): Writes {
    var tail := Do(SetDead(j.url, d), Do(RemProcessing(j), Do(RemAttempts(j.url), Do(RemStrikes(j.url), Done))));
    if d.until > 0 then Do(SetNext(j.url, d.until), tail) else tail
  }

  // ---- scripts ----

  function LeaseScript(cfg: Config, s: State, now: int): Writes {
    if s.ready == [] then Done
    else Do(MoveReady, Do(SetLease(Last(s.ready), now + cfg.leaseTimeout), Done))
  }

  function AdmitVideoScript(s: State, u: Url, now: int, added: bool): Writes {
    if u in s.dead && s.dead[u].Blocks(now) then Done
    else
      var j := Fresh(s, u);
      Forgive(s, u, Do(Incr, Do(PushReady(j), Do(Claim(u), if added then Done else Do(RemReady(j), Done)))))
  }

  function AdmitListingScript(s: State, u: Url, now: int): Writes {
    if u in s.dead && s.dead[u].Blocks(now) then Done
    else
      Forgive(s, u,
              if u in s.next && s.next[u] > now then Done
              else Do(Incr, Do(PushReady(Fresh(s, u)), Do(SetNext(u, PENDING_SCORE), Done))))
  }

  function SeedScript(s: State, u: Url): Writes {
    if u in s.next then Done else Do(SetNext(u, 0), Done)
  }

  /** The state after the scheduler has admitted u. */
  function Scheduled(s: State, u: Url): State {
    s.(jobSeq := s.jobSeq + 1, ready := [Fresh(s, u)] + s.ready,
       dead := s.dead - {u}, next := s.next[u := PENDING_SCORE])
  }

  function ScheduleScript(s: State, due: seq<Url>, now: int): Writes
    decreases |due|
  {
    if due == [] then Done
    else
      var u := due[0];
      if u in s.dead && s.dead[u].until == 0 then
        Do(RemNext(u), ScheduleScript(Apply(s, RemNext(u)), due[1..], now))
      else if u in s.dead && s.dead[u].until > now then
        var w := SetNext(u, s.dead[u].until);
        Do(w, ScheduleScript(Apply(s, w), due[1..], now))
      else
        Forgive(s, u, Do(Incr, Do(PushReady(Fresh(s, u)), Do(SetNext(u, PENDING_SCORE),
                         ScheduleScript(Scheduled(s, u), due[1..], now)))))
  }

  /** How many of the due listings the scheduler admits. */
  function ScheduleCount(s: State, due: seq<Url>, now: int): nat
    decreases |due|
  {
    if due == [] then 0
    else
      var u := due[0];
      if u in s.dead && s.dead[u].until == 0 then ScheduleCount(Apply(s, RemNext(u)), due[1..], now)
      else if u in s.dead && s.dead[u].until > now then
        ScheduleCount(Apply(s, SetNext(u, s.dead[u].until)), due[1..], now)
      else 1 + ScheduleCount(Scheduled(s, u), due[1..], now)
  }

  function AckScript(s: State, j: Job): Writes {
    if j !in s.lease then Done
    else Do(RemLease(j), Do(RemProcessing(j), Do(RemAttempts(j.url), Do(RemStrikes(j.url), Done))))
  }

  function CompleteScript(cfg: Config, s: State, j: Job, newChildren: nat, now: int): Writes {
    if j !in s.lease then Done
    else
      var b := Barren(s, j.url, newChildren);
      Do(RemLease(j), Do(SetBarren(j.url, b), Do(SetNext(j.url, now + Ttl(cfg, j.url, b)), Do(RemDead(j.url),
         Do(RemProcessing(j), Do(RemAttempts(j.url), Do(RemStrikes(j.url), Done)))))))
  }

  function NackScript(s: State, j: Job): Writes {
    if j !in s.lease then Done
    else Do(RemLease(j), Do(Incr, Do(PushReady(Fresh(s, j.url)), Do(RemProcessing(j), Done))))
  }

  /** The bookkeeping of a failure: the lease, then attempts, then strikes. */
  function Strike(s: State, j: Job, kind: FailClass, tail: Writes): Writes {
    Do(RemLease(j), Do(SetAttempts(j.url, Get(s.attempts, j.url) + 1),
       if kind.Strikeable? then Do(SetStrikes(j.url, Strikes(s, j.url, kind)), tail) else tail))
  }

  function Struck(s: State, j: Job, kind: FailClass): State {
    s.(lease := s.lease - {j}, attempts := s.attempts[j.url := Get(s.attempts, j.url) + 1],
       strikes := if kind.Strikeable? then s.strikes[j.url := Strikes(s, j.url, kind)] else s.strikes)
  }

  function Delay(i: Job, j: Job, at: int): Writes {
    Do(Incr, Do(SetDelayed(i, at), Do(RemProcessing(j), Done)))
  }

  function FailScript(cfg: Config, s: State, j: Job, kind: FailClass, now: int): Writes
    requires cfg.Valid()
  {
    if j !in s.lease then Done
    else if Dies(cfg, s, j.url, kind) then
      Strike(s, j, kind, Bury(j, Dead(EXHAUSTED, QuarantineUntil(cfg, j.url, now))))
    else
      Strike(s, j, kind, Delay(Fresh(s, j.url), j, now + Backoff(Ladder(cfg, kind), Get(s.attempts, j.url) + 1)))
  }

  function TerminalScript(cfg: Config, s: State, j: Job, reason: string, now: int): Writes {
    if j !in s.lease then Done
    else Do(RemLease(j), Bury(j, Dead(reason, QuarantineUntil(cfg, j.url, now))))
  }

  function Promoted(s: State, j: Job): State {
    s.(jobSeq := s.jobSeq + 1, ready := [Fresh(s, j.url)] + s.ready, delayed := s.delayed - {j})
  }

  function PromoteScript(s: State, due: seq<Job>): Writes
    decreases |due|
  {
    if due == [] then Done
    else Do(Incr, Do(PushReady(Fresh(s, due[0].url)), Do(RemDelayed(due[0]),
            PromoteScript(Promoted(s, due[0]), due[1..]))))
  }

  function Swept(s: State, j: Job): State {
    s.(jobSeq := s.jobSeq + 1, ready := [Fresh(s, j.url)] + s.ready, processing := Remove(s.processing, j))
  }

  function Reaped(s: State, j: Job): State {
    Swept(s.(lease := s.lease - {j}), j)
  }

  function ReapScript(s: State, expired: seq<Job>): Writes
    decreases |expired|
  {
    if expired == [] then Done
    else if expired[0] !in s.lease then ReapScript(s, expired[1..])
    else Do(RemLease(expired[0]), Do(Incr, Do(PushReady(Fresh(s, expired[0].url)), Do(RemProcessing(expired[0]),
            ReapScript(Reaped(s, expired[0]), expired[1..])))))
  }

  function ReapCount(s: State, expired: seq<Job>): nat
    decreases |expired|
  {
    if expired == [] then 0
    else if expired[0] !in s.lease then ReapCount(s, expired[1..])
    else 1 + ReapCount(Reaped(s, expired[0]), expired[1..])
  }

  /** LRANGE processing -SWEEP_LIMIT -1. */
  function SweepItems(s: State): seq<Job> {
    if |s.processing| <= SWEEP_LIMIT then s.processing else s.processing[|s.processing| - SWEEP_LIMIT..]
  }

  function SweepScript(s: State, items: seq<Job>): Writes
    decreases |items|
  {
    if items == [] then Done
    else if items[0] in s.lease then SweepScript(s, items[1..])
    else Do(Incr, Do(PushReady(Fresh(s, items[0].url)), Do(RemProcessing(items[0]),
            SweepScript(Swept(s, items[0]), items[1..]))))
  }

  function SweepCount(s: State, items: seq<Job>): nat
    decreases |items|
  {
    if items == [] then 0
    else if items[0] in s.lease then SweepCount(s, items[1..])
    else 1 + SweepCount(Swept(s, items[0]), items[1..])
  }

  // ---- net effects ----

  /** A video enqueued and claimed. */
  function Admitted(s: State, u: Url): State {
    s.(jobSeq := s.jobSeq + 1, ready := [Fresh(s, u)] + s.ready, claimed := s.claimed + {u})
  }

  /** A video admission that the filter turned down: only the counter and the filter have moved. */
  function Refused(s: State, u: Url): State {
    s.(jobSeq := s.jobSeq + 1, claimed := s.claimed + {u})
  }

  function Closed(s: State, j: Job): State {
    s.(processing := Remove(s.processing, j), attempts := s.attempts - {j.url}, strikes := s.strikes - {j.url})
  }

  function Entombed(s: State, j: Job, d: Dead): State {
    s.(next := if d.until > 0 then s.next[j.url := d.until] else s.next, dead := s.dead[j.url := d])
  }

  function Buried(s: State, j: Job, d: Dead): State {
    Closed(Entombed(s, j, d), j)
  }

  function Postponed(s: State, j: Job, at: int): State {
    s.(jobSeq := s.jobSeq + 1, delayed := s.delayed[Fresh(s, j.url) := at], processing := Remove(s.processing, j))
  }

  function Rescheduled(s: State, j: Job, barren: nat, at: int): State {
    s.(lease := s.lease - {j}, barren := s.barren[j.url := barren], next := s.next[j.url := at],
       dead := s.dead - {j.url})
  }

  function Completed(cfg: Config, s: State, j: Job, newChildren: nat, now: int): State {
    var b := Barren(s, j.url, newChildren);
    Closed(Rescheduled(s, j, b, now + Ttl(cfg, j.url, b)), j)
  }

  function Script(cfg: Config, s: State, c: Call): Writes
    requires cfg.Valid()
  {
    match c
    case Lease(now) => LeaseScript(cfg, s, now)
    case AdmitVideo(u, now, added) => AdmitVideoScript(s, u, now, added)
    case AdmitListing(u, now) => AdmitListingScript(s, u, now)
    case SeedListing(u) => SeedScript(s, u)
    case Schedule(now, due) => ScheduleScript(s, due, now)
    case Ack(j) => AckScript(s, j)
    case CompleteListing(j, n, now) => CompleteScript(cfg, s, j, n, now)
    case Nack(j) => NackScript(s, j)
    case Fail(j, kind, now) => FailScript(cfg, s, j, kind, now)
    case Terminal(j, reason, now) => TerminalScript(cfg, s, j, reason, now)
    case Promote(_, due) => PromoteScript(s, due)
    case Reap(_, expired) => ReapScript(s, expired)
    case Sweep => SweepScript(s, SweepItems(s))
  }

  /** What the script returns when it runs to its end. */
  function Answer(cfg: Config, s: State, c: Call): Reply
    requires cfg.Valid()
  {
    match c
    case Lease(_) => if s.ready == [] then Nil else Leased(Last(s.ready))
    case AdmitVideo(u, now, added) =>
      if (u in s.dead && s.dead[u].Blocks(now)) || !added then Suppressed else New
    case AdmitListing(u, now) =>
      if (u in s.dead && s.dead[u].Blocks(now)) || (u in s.next && s.next[u] > now) then Suppressed
      else if u in s.next then DueRevisit else New
    case SeedListing(_) => Ok
    case Schedule(now, due) => Count(ScheduleCount(s, due, now))
    case Ack(j) => if j in s.lease then Ok else Stale
    case CompleteListing(j, _, _) => if j in s.lease then Ok else Stale
    case Nack(j) => if j in s.lease then Ok else Stale
    case Fail(j, kind, _) => if j !in s.lease then Stale else if Dies(cfg, s, j.url, kind) then Died else Delayed
    case Terminal(j, _, _) => if j in s.lease then Ok else Stale
    case Promote(_, due) => Count(|due|)
    case Reap(_, expired) => Count(ReapCount(s, expired))
    case Sweep => Count(SweepCount(s, SweepItems(s)))
  }

  /** The state after the script has run to its end. */
  function Exec(cfg: Config, s: State, c: Call): State
    requires cfg.Valid()
  {
    Run(s, Script(cfg, s, c))
  }

  /** A dead reason the checkpoint accepts; the worker passes "404" or "410". */
  predicate ValidReason(reason: string) {
    reason != "" && '|' !in reason && '\r' !in reason && '\n' !in reason
  }

  lemma ExhaustedReason()
    ensures ValidReason(EXHAUSTED)
  {
  }

  /** How the crawler uses the frontier: URLs are routed by their class, range answers are those of
      Redis, BF.ADD answers 1 only for an unclaimed URL, and due times stay below PENDING_SCORE.
      The clock is otherwise arbitrary: successive readings may go back. */
  ghost predicate Enabled(cfg: Config, s: State, c: Call) {
    match c
    case Lease(_) => true
    case AdmitVideo(u, _, added) => cfg.IsVideo(u) && (added ==> u !in s.claimed)
    case AdmitListing(u, now) => !cfg.IsVideo(u) && now < PENDING_SCORE
    case SeedListing(u) => !cfg.IsVideo(u)
    case Schedule(now, due) => now < PENDING_SCORE && IsRange(s.next, now, cfg.batchLimit, due)
    case Ack(_) => true
    case CompleteListing(j, _, now) => !cfg.IsVideo(j.url) && cfg.ClockOk(now)
    case Nack(_) => true
    case Fail(_, _, now) => cfg.ClockOk(now)
    case Terminal(_, reason, now) => cfg.ClockOk(now) && ValidReason(reason)
    case Promote(now, due) => IsRange(s.delayed, now, PROMOTE_LIMIT, due)
    case Reap(now, expired) => IsRange(s.lease, now, REAP_LIMIT, expired)
    case Sweep => true
  }
}
