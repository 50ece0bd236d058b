/** The Redis keyspace of the crawl frontier, and the single commands the Lua scripts issue on it.

    A frontier member is the string "<jobID>|<url>"; here it is the record `Job`. Module `Codec`
    proves that the string form splits back exactly, so the record loses nothing. */
module Keyspace {

  type Url = string

  /** 9999-12-31: the listing:next score of a listing that has a live job. */
  const PENDING_SCORE: int := 253402300799

  datatype Option<+T> = None | Some(value: T)

  datatype UrlClass = Video | Listing | Seed

  /** FrontierConfig together with the injected URL classifier. All durations are in seconds. */
  datatype Config = Config(
    classify: Url -> UrlClass,
    leaseTimeout: int,
    maxStrikes: int,
    rateLimitBackoff: seq<int>,
    strikeBackoff: seq<int>,
    listingBaseTtl: int,
    seedTtl: int,
    listingMaxTtl: int,
    quarantine: int,
    batchLimit: nat)
  {
    predicate IsVideo(url: Url) {
      classify(url).Video?
    }

    /** What the scripts take for granted about the tunables. */
    predicate Valid() {
      && maxStrikes >= 1
      && rateLimitBackoff != [] && strikeBackoff != []
      && listingBaseTtl > 0 && seedTtl > 0 && listingMaxTtl > 0
      && quarantine > 0
      && batchLimit >= 1
    }

    /** A clock reading from which no due time can collide with PENDING_SCORE. */
    predicate ClockOk(now: int) {
      && 0 <= now
      && now + quarantine < PENDING_SCORE
      && now + listingMaxTtl < PENDING_SCORE
    }
  }

  datatype Job = Job(id: nat, url: Url)

  /** A dead entry "<reason>|<until>"; until = 0 means forever. */
  datatype Dead = Dead(reason: string, until: int)
  {
    predicate Blocks(now: int) {
      until == 0 || until > now
    }
  }

  datatype State = State(
    jobSeq: nat,                // crawler:job:seq
    ready: seq<Job>,            // crawler:ready, index 0 is the left end
    processing: seq<Job>,       // crawler:processing
    lease: map<Job, int>,       // crawler:lease
    delayed: map<Job, int>,     // crawler:delayed
    dead: map<Url, Dead>,       // crawler:dead
    attempts: map<Url, nat>,    // crawler:attempts
    strikes: map<Url, nat>,     // crawler:strikes
    next: map<Url, int>,        // crawler:listing:next
    barren: map<Url, nat>,      // crawler:listing:barren
    claimed: set<Url>)          // URLs crawler:bloom reports as present

  const EMPTY: State := State(0, [], [], map[], map[], map[], map[], map[], map[], map[], {})

  /** One Redis command that changes the keyspace. */
  datatype Write =
    | Incr                             // INCR job:seq
    | PushReady(job: Job)              // LPUSH ready
    | MoveReady                        // LMOVE ready processing RIGHT LEFT
    | RemReady(job: Job)               // LREM ready 1
    | RemProcessing(job: Job)          // LREM processing 1
    | SetLease(job: Job, at: int)      // ZADD lease
    | RemLease(job: Job)               // ZREM lease
    | SetDelayed(job: Job, at: int)    // ZADD delayed
    | RemDelayed(job: Job)             // ZREM delayed
    | SetNext(url: Url, at: int)       // ZADD listing:next
    | RemNext(url: Url)                // ZREM listing:next
    | SetDead(url: Url, entry: Dead)   // HSET dead
    | RemDead(url: Url)                // HDEL dead
    | SetAttempts(url: Url, n: nat)    // HINCRBY attempts
    | RemAttempts(url: Url)            // HDEL attempts
    | SetStrikes(url: Url, n: nat)     // HINCRBY strikes
    | RemStrikes(url: Url)             // HDEL strikes
    | SetBarren(url: Url, n: nat)      // HSET / HINCRBY listing:barren
    | RemBarren(url: Url)              // HDEL listing:barren
    | Claim(url: Url)                  // BF.ADD

  function Apply(s: State, w: Write): State {
    match w
    case Incr => s.(jobSeq := s.jobSeq + 1)
    case PushReady(j) => s.(ready := [j] + s.ready)
    case MoveReady =>
      if s.ready == [] then s
      else s.(ready := s.ready[..|s.ready| - 1], processing := [s.ready[|s.ready| - 1]] + s.processing)
    case RemReady(j) => s.(ready := Remove(s.ready, j))
    case RemProcessing(j) => s.(processing := Remove(s.processing, j))
    case SetLease(j, at) => s.(lease := s.lease[j := at])
    case RemLease(j) => s.(lease := s.lease - {j})
    case SetDelayed(j, at) => s.(delayed := s.delayed[j := at])
    case RemDelayed(j) => s.(delayed := s.delayed - {j})
    case SetNext(u, at) => s.(next := s.next[u := at])
    case RemNext(u) => s.(next := s.next - {u})
    case SetDead(u, d) => s.(dead := s.dead[u := d])
    case RemDead(u) => s.(dead := s.dead - {u})
    case SetAttempts(u, n) => s.(attempts := s.attempts[u := n])
    case RemAttempts(u) => s.(attempts := s.attempts - {u})
    case SetStrikes(u, n) => s.(strikes := s.strikes[u := n])
    case RemStrikes(u) => s.(strikes := s.strikes - {u})
    case SetBarren(u, n) => s.(barren := s.barren[u := n])
    case RemBarren(u) => s.(barren := s.barren - {u})
    case Claim(u) => s.(claimed := s.claimed + {u})
  }

  /** A script's writes in order. Redis does not roll back, so an aborted script is a prefix. */
  datatype Writes = Done | Do(first: Write, rest: Writes)

  function Run(s: State, ws: Writes): State
    decreases ws
  {
    match ws
    case Done => s
    case Do(w, rest) => Run(Apply(s, w), rest)
  }

  /** The state in which a script that stops after its first k writes leaves the keyspace. */
  function RunPrefix(s: State, ws: Writes, k: nat): State
    decreases ws
  {
    if k == 0 || ws.Done? then s else RunPrefix(Apply(s, ws.first), ws.rest, k - 1)
  }

  function Length(ws: Writes): nat {
    match ws
    case Done => 0
    case Do(_, rest) => 1 + Length(rest)
  }

  lemma {:induction false} WholePrefix(s: State, ws: Writes, k: nat)
    requires k >= Length(ws)
    ensures RunPrefix(s, ws, k) == Run(s, ws)
    decreases ws
  {
    match ws
    case Done =>
    case Do(w, rest) => WholePrefix(Apply(s, w), rest, k - 1);
  }

  lemma Run1(s: State, a: Write)
    ensures Run(s, Do(a, Done)) == Apply(s, a)
  {
    assert Run(s, Do(a, Done)) == Run(Apply(s, a), Done);
  }

  lemma RunDo(s: State, w: Write, t: State, rest: Writes)
    requires t == Apply(s, w)
    ensures Run(s, Do(w, rest)) == Run(t, rest)
  {
  }

  lemma Run2(s: State, a: Write, b: Write, rest: Writes)
    ensures Run(s, Do(a, Do(b, rest))) == Run(Apply(Apply(s, a), b), rest)
  {
    assert Run(s, Do(a, Do(b, rest))) == Run(Apply(s, a), Do(b, rest));
  }

  // ---- lists ----

  /** LREM key 1 x: drop the first occurrence. */
  function Remove<T(==)>(q: seq<T>, x: T): seq<T> {
    if q == [] then [] else if q[0] == x then q[1..] else [q[0]] + Remove(q[1..], x)
  }

  function UrlsOf(q: seq<Job>): seq<Url> {
    seq(|q|, i requires 0 <= i < |q| => q[i].url)
  }

  function Last<T>(q: seq<T>): T
    requires q != []
  {
    q[|q| - 1]
  }

  /** Job IDs strictly decrease from left to right. */
  ghost predicate Descending(q: seq<Job>) {
    forall a, b :: 0 <= a < b < |q| ==> q[a].id > q[b].id
  }

  lemma {:induction false} RemoveAbsent<T>(q: seq<T>, x: T)
    requires x !in q
    ensures Remove(q, x) == q
  {
    if q != [] {
      RemoveAbsent(q[1..], x);
    }
  }

  lemma {:induction false} RemoveOnly<T>(q: seq<T>, x: T)
    ensures forall y :: y in Remove(q, x) ==> y in q
    ensures forall y :: y in q && y != x ==> y in Remove(q, x)
    ensures |Remove(q, x)| == if x in q then |q| - 1 else |q|
  {
    if q != [] && q[0] != x {
      RemoveOnly(q[1..], x);
      assert q == [q[0]] + q[1..];
    } else if q != [] {
      assert q == [q[0]] + q[1..];
    }
  }

  lemma {:induction false} RemoveDescending(q: seq<Job>, x: Job)
    requires Descending(q)
    ensures Descending(Remove(q, x)) && x !in Remove(q, x)
  {
    if q != [] && q[0] != x {
      RemoveDescending(q[1..], x);
      var r := Remove(q[1..], x);
      RemoveOnly(q[1..], x);
      forall a, b | 0 <= a < b < |r| + 1
        ensures ([q[0]] + r)[a].id > ([q[0]] + r)[b].id
      {
        assert r[b - 1] in q[1..];
      }
    }
  }

  lemma {:induction false} RemoveInPrefix<T>(p: seq<T>, q: seq<T>, x: T)
    requires x in p
    ensures Remove(p + q, x) == Remove(p, x) + q
  {
    if p[0] == x {
      assert (p + q)[1..] == p[1..] + q;
    } else {
      RemoveInPrefix(p[1..], q, x);
      assert (p + q)[1..] == p[1..] + q;
    }
  }

  predicate Distinct<T(==)>(q: seq<T>) {
    forall a, b :: 0 <= a < b < |q| ==> q[a] != q[b]
  }

  function Elements<T>(q: seq<T>): set<T> {
    set x | x in q
  }

  lemma {:induction false} DistinctSize<T>(q: seq<T>)
    ensures |Elements(q)| <= |q|
    ensures Distinct(q) <==> |Elements(q)| == |q|
  {
    if q != [] {
      var n := |q| - 1;
      DistinctSize(q[..n]);
      assert q == q[..n] + [q[n]];
      assert Elements(q) == Elements(q[..n]) + {q[n]};
      if q[n] in q[..n] {
        assert Elements(q) == Elements(q[..n]);
      } else {
        assert Distinct(q) <==> Distinct(q[..n]);
      }
    }
  }

  lemma SubsetSize<T>(a: set<T>, b: set<T>)
    requires a <= b
    ensures |a| <= |b| && (|a| == |b| ==> a == b)
  {
    assert b == a + (b - a);
    assert |b| == |a| + |b - a|;
  }

  /** Which links canonicalise to something, "" standing for nothing. */
  function HasUrl(canonicalize: string -> Url, links: seq<string>): int -> bool {
    k => 0 <= k < |links| && canonicalize(links[k]) != ""
  }

  /** The numbers below n at which p holds. */
  function Below(n: nat, p: int -> bool): set<int> {
    set k | 0 <= k < n && p(k)
  }

  lemma BelowNext(n: nat, p: int -> bool)
    ensures Below(0, p) == {} && |Below(n + 1, p)| == |Below(n, p)| + if p(n) then 1 else 0
  {
    if p(n) {
      assert Below(n + 1, p) == Below(n, p) + {n};
    } else {
      assert Below(n + 1, p) == Below(n, p);
    }
  }

  // ---- live work ----

  predicate IsLive(s: State, j: Job) {
    j in s.ready || j in s.processing || j in s.delayed
  }

  ghost predicate LiveUrl(s: State, u: Url) {
    exists j :: IsLive(s, j) && j.url == u
  }

  /** The URL of j has another live job. */
  ghost predicate OtherLive(s: State, j: Job) {
    exists i :: IsLive(s, i) && i != j && i.url == j.url
  }

  predicate Pending(s: State, u: Url) {
    u in s.next && s.next[u] == PENDING_SCORE
  }

  // ---- sorted-set ranges ----

  /** r is an answer of ZRANGEBYSCORE m -inf hi LIMIT 0 limit. Only the order among equal scores is left open. */
  ghost predicate IsRange<K>(m: map<K, int>, hi: int, limit: nat, r: seq<K>) {
    && (forall a, b :: 0 <= a < b < |r| ==> r[a] != r[b])
    && (forall k :: k in r ==> k in m && m[k] <= hi)
    && (forall a, b :: 0 <= a < b < |r| ==> m[r[a]] <= m[r[b]])
    && |r| <= limit
    && (|r| < limit ==> forall k :: k in m && m[k] <= hi ==> k in r)
    && (forall k, x :: k in m && m[k] <= hi && k !in r && x in r ==> m[x] <= m[k])
  }
}
