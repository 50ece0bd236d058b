/** The worker: its failure counters, the resolution of a leased job, and the loop around them. Replies of
    the frontier, of Mongo and of the site come in from outside; what the worker does is the log of actions. */
module Worker {
  import opened Keyspace
  import opened Scripts

  const RATE_LIMIT_STOP: nat := 5
  const ACCESS_NOTICE: string := "uk_access_notice"

  /** What fetching and parsing one page came to. */
  datatype Outcome =
    | PageVideo(links: seq<string>, isTarget: bool)
    | PageListing(links: seq<string>)
    | PageNotFound(reason: string)
    | PageRetryable(kind: FailClass)
    | PageUnknown
    | PageCancelled
    | PageInvalid(reason: string)

  predicate IsRateLimited(o: Outcome) {
    o.PageRetryable? && o.kind.RateLimited?
  }

  predicate IsFailure(o: Outcome) {
    o.PageRetryable? || o.PageUnknown? || o.PageInvalid?
  }

  // ---- what the counters mean ----

  /** The history without cancellations. */
  function Effective(h: seq<Outcome>): seq<Outcome> {
    if h == [] then []
    else
      var rest := Effective(h[..|h| - 1]);
      if h[|h| - 1].PageCancelled? then rest else rest + [h[|h| - 1]]
  }

  /** The length of the longest suffix in which p holds throughout. */
  function TrailingRun(h: seq<Outcome>, p: Outcome -> bool): (n: nat)
    ensures n <= |h|
  {
    if h == [] || !p(h[|h| - 1]) then 0 else 1 + TrailingRun(h[..|h| - 1], p)
  }

  lemma {:induction false} TrailingRunMeaning(h: seq<Outcome>, p: Outcome -> bool)
    ensures IsTrailing(h, p, TrailingRun(h, p))
  {
    if h != [] && p(h[|h| - 1]) {
      TrailingRunMeaning(h[..|h| - 1], p);
    }
  }

  function CountIf(h: seq<Outcome>, p: Outcome -> bool): nat {
    if h == [] then 0 else CountIf(h[..|h| - 1], p) + if p(h[|h| - 1]) then 1 else 0
  }

  /** The failures since the last page that worked. */
  function FailureRun(h: seq<Outcome>): seq<Outcome> {
    if h == [] then []
    else
      var rest, o := FailureRun(h[..|h| - 1]), h[|h| - 1];
      if o.PageCancelled? then rest else if IsFailure(o) then rest + [o] else []
  }

  /** Effective drops the cancellations and nothing else. */
  lemma {:induction false} EffectiveLaw(a: seq<Outcome>, b: seq<Outcome>, o: Outcome)
    ensures Effective(a + b) == Effective(a) + Effective(b)
    ensures Effective([o]) == if o == PageCancelled then [] else [o]
  {
    assert [o][..0] == [];
    if b == [] {
      assert a + b == a;
    } else {
      var p, x := b[..|b| - 1], b[|b| - 1];
      assert a + b == (a + p) + [x];
      EffectiveSnoc(a + p, x);
      EffectiveLaw(a, p, o);
    }
  }

  lemma EffectiveSnoc(h: seq<Outcome>, o: Outcome)
    ensures Effective(h + [o]) == if o.PageCancelled? then Effective(h) else Effective(h) + [o]
  {
    assert (h + [o])[..|h|] == h;
  }

  lemma RunSnoc(h: seq<Outcome>, o: Outcome, p: Outcome -> bool)
    ensures TrailingRun(h + [o], p) == if p(o) then TrailingRun(h, p) + 1 else 0
  {
    assert (h + [o])[..|h|] == h;
  }

  lemma CountSnoc(h: seq<Outcome>, o: Outcome, p: Outcome -> bool)
    ensures CountIf(h + [o], p) == CountIf(h, p) + if p(o) then 1 else 0
  {
    assert (h + [o])[..|h|] == h;
  }

  lemma SliceSnoc(e: seq<Outcome>, o: Outcome, n: nat)
    requires n <= |e|
    ensures (e + [o])[|e| - n..] == e[|e| - n..] + [o] && (e + [o])[|e| + 1..] == []
  {
  }

  lemma SuffixStep(e: seq<Outcome>, o: Outcome, r: seq<Outcome>)
    requires r == e[|e| - TrailingRun(e, IsFailure)..]
    ensures (e + [o])[|e| + 1 - TrailingRun(e + [o], IsFailure)..] == if IsFailure(o) then r + [o] else []
  {
    RunSnoc(e, o, IsFailure);
    SliceSnoc(e, o, TrailingRun(e, IsFailure));
  }

  /** They are the longest run of failures that the history, cancellations aside, ends with. */
  lemma {:induction false} FailureRunMeaning(h: seq<Outcome>)
    ensures FailureRun(h) == Effective(h)[|Effective(h)| - TrailingRun(Effective(h), IsFailure)..]
  {
    if h != [] {
      var p, o := h[..|h| - 1], h[|h| - 1];
      FailureRunMeaning(p);
      FailureRunStep(Effective(p), o, FailureRun(p), Effective(h), FailureRun(h));
    }
  }

  lemma FailureRunStep(e: seq<Outcome>, o: Outcome, r: seq<Outcome>, e': seq<Outcome>, r': seq<Outcome>)
    requires r == e[|e| - TrailingRun(e, IsFailure)..] && e' == if o.PageCancelled? then e else e + [o]
    requires r' == if o.PageCancelled? then r else if IsFailure(o) then r + [o] else []
    ensures r' == e'[|e'| - TrailingRun(e', IsFailure)..]
  {
    SuffixStep(e, o, r);
  }

  /** The counters of workerFailures after a history. */
  datatype Tally = Tally(consecutive: nat, rateLimited: nat, consecutiveRateLimited: nat)

  function Observed(t: Tally, o: Outcome): Tally {
    if o.PageCancelled? then t
    else if !IsFailure(o) then Tally(0, 0, 0)
    else if IsRateLimited(o) then Tally(t.consecutive + 1, t.rateLimited + 1, t.consecutiveRateLimited + 1)
    else Tally(t.consecutive + 1, t.rateLimited, 0)
  }

  function TallyOf(h: seq<Outcome>): Tally {
    if h == [] then Tally(0, 0, 0) else Observed(TallyOf(h[..|h| - 1]), h[|h| - 1])
  }

  lemma TallySnoc(h: seq<Outcome>, o: Outcome)
    ensures TallyOf(h + [o]) == Observed(TallyOf(h), o)
  {
    assert (h + [o])[..|h|] == h;
  }

  lemma {:induction false} RateTally(h: seq<Outcome>)
    ensures TallyOf(h).consecutiveRateLimited == TrailingRun(Effective(h), IsRateLimited)
  {
    if h != [] {
      var p, o := h[..|h| - 1], h[|h| - 1];
      RateTally(p);
      assert h == p + [o];
      EffectiveSnoc(p, o);
      RunSnoc(Effective(p), o, IsRateLimited);
    }
  }

  lemma {:induction false} FailureTally(h: seq<Outcome>)
    ensures TallyOf(h).consecutive == TrailingRun(Effective(h), IsFailure)
  {
    if h != [] {
      var p, o := h[..|h| - 1], h[|h| - 1];
      FailureTally(p);
      assert h == p + [o];
      EffectiveSnoc(p, o);
      RunSnoc(Effective(p), o, IsFailure);
    }
  }

  lemma LimitedStep(t: Tally, r: seq<Outcome>, o: Outcome, r': seq<Outcome>)
    requires t.rateLimited == CountIf(r, IsRateLimited)
    requires r' == if o.PageCancelled? then r else if IsFailure(o) then r + [o] else []
    ensures Observed(t, o).rateLimited == CountIf(r', IsRateLimited)
  {
    CountSnoc(r, o, IsRateLimited);
  }

  lemma {:induction false} LimitedTally(h: seq<Outcome>)
    ensures TallyOf(h).rateLimited == CountIf(FailureRun(h), IsRateLimited)
  {
    if h != [] {
      var p, o := h[..|h| - 1], h[|h| - 1];
      LimitedTally(p);
      LimitedStep(TallyOf(p), FailureRun(p), o, FailureRun(h));
    }
  }

  /** n is the length of the longest run of p with which e ends. */
  ghost predicate IsTrailing(e: seq<Outcome>, p: Outcome -> bool, n: nat) {
    && n <= |e| && (forall i :: |e| - n <= i < |e| ==> p(e[i]))
    && (n < |e| ==> !p(e[|e| - n - 1]))
  }

  /** In every history, cancellations aside: consecutive is the length of the longest run of failures it ends
      with, rateLimited the number of rate-limited ones in that run, consecutiveRateLimited the length of the
      longest run of rate-limited ones it ends with. */
  lemma TallyMeaning(h: seq<Outcome>)
    ensures var e, t := Effective(h), TallyOf(h);
            && IsTrailing(e, IsRateLimited, t.consecutiveRateLimited)
            && IsTrailing(e, IsFailure, t.consecutive)
            && t.rateLimited == CountIf(e[|e| - t.consecutive..], IsRateLimited)
  {
    RateTally(h);
    FailureTally(h);
    LimitedTally(h);
    TrailingRunMeaning(Effective(h), IsRateLimited);
    TrailingRunMeaning(Effective(h), IsFailure);
    FailureRunMeaning(h);
  }

  lemma {:induction false} TallyOrdered(h: seq<Outcome>)
    ensures TallyOf(h).consecutiveRateLimited <= TallyOf(h).rateLimited <= TallyOf(h).consecutive
  {
    if h != [] {
      TallyOrdered(h[..|h| - 1]);
    }
  }

  /** workerFailures. */
  class WorkerFailures {
    var consecutive: nat
    var rateLimited: nat
    var consecutiveRateLimited: nat
    ghost var seen: seq<Outcome>

    ghost predicate Valid()
      reads this
    {
      TallyOf(seen) == Tally(consecutive, rateLimited, consecutiveRateLimited)
    }

    constructor ()
      ensures Valid() && seen == []
    {
      consecutive, rateLimited, consecutiveRateLimited, seen := 0, 0, 0, [];
    }

    /** The counters alone. */
    method Count(out: Outcome)
      modifies this`consecutive, this`rateLimited, this`consecutiveRateLimited
      ensures Tally(consecutive, rateLimited, consecutiveRateLimited)
           == Observed(old(Tally(consecutive, rateLimited, consecutiveRateLimited)), out)
    {
      if !out.PageCancelled? {
        if out.PageRetryable? && out.kind.RateLimited? {
          consecutiveRateLimited := consecutiveRateLimited + 1;
        } else {
          consecutiveRateLimited := 0;
        }
      }
      if out.PageCancelled? {
        return;
      }
      if out.PageVideo? || out.PageListing? || out.PageNotFound? {
        consecutive := 0;
        rateLimited := 0;
        return;
      }
      consecutive := consecutive + 1;
      if out.PageRetryable? && out.kind.RateLimited? {
        rateLimited := rateLimited + 1;
      }
    }

    method Observe(out: Outcome)
      requires Valid()
      modifies this
      ensures Valid() && seen == old(seen) + [out]
      ensures consecutiveRateLimited <= rateLimited <= consecutive
      ensures consecutiveRateLimited <= old(consecutiveRateLimited) + 1
      ensures out == PageCancelled ==>
                && consecutive == old(consecutive) && rateLimited == old(rateLimited)
                && consecutiveRateLimited == old(consecutiveRateLimited)
      ensures out == PageRetryable(RateLimited) ==>
                && consecutive == old(consecutive) + 1 && rateLimited == old(rateLimited) + 1
                && consecutiveRateLimited == old(consecutiveRateLimited) + 1
      ensures out.PageInvalid? || out == PageUnknown || out == PageRetryable(Strikeable) ==>
                && consecutive == old(consecutive) + 1 && rateLimited == old(rateLimited)
                && consecutiveRateLimited == 0
      ensures out.PageVideo? || out.PageListing? || out.PageNotFound? ==>
                consecutive == 0 && rateLimited == 0 && consecutiveRateLimited == 0
    {
      Count(out);
      TallySnoc(seen, out);
      TallyOrdered(seen + [out]);
      seen := seen + [out];
    }
  }

  /** The last five outcomes are all rate limits. */
  predicate FiveRateLimits(e: seq<Outcome>) {
    |e| >= 5 && forall i :: |e| - 5 <= i < |e| ==> e[i] == PageRetryable(RateLimited)
  }

  lemma FiveInARow(h: seq<Outcome>)
    ensures TallyOf(h).consecutiveRateLimited <= RATE_LIMIT_STOP ==>
              (TallyOf(h).consecutiveRateLimited == RATE_LIMIT_STOP <==> FiveRateLimits(Effective(h)))
  {
    RateTally(h);
    TrailingRunMeaning(Effective(h), IsRateLimited);
  }

  // ---- the worker's actions ----

  datatype Resolution = Acked | Nacked | Completed(newChildren: nat) | Failed(kind: FailClass) | Ended(reason: string)

  datatype Action =
    | Ask                                      // a call of Lease
    | Take(job: Job)                           // its answer, if there is one
    | Upsert(url: Url)
    | Admit(url: Url)
    | Resolve(job: Job, how: Resolution)

  /** Follows a log: None once it breaks the discipline, else the job held. Nothing is asked for while a job is
      held, and only the held job is resolved. */
  function Holding(log: seq<Action>): Option<Option<Job>> {
    if log == [] then Some(None)
    else
      var before, a := Holding(log[..|log| - 1]), log[|log| - 1];
      if before.None? then None
      else
        var held := before.value;
        match a
        case Ask => if held.None? then Some(None) else None
        case Take(j) => if held.None? then Some(Some(j)) else None
        case Upsert(_) => if held.Some? then Some(held) else None
        case Admit(_) => if held.Some? then Some(held) else None
        case Resolve(j, _) => if held == Some(j) then Some(None) else None
  }

  /** The log has, after position i, one resolution of j with nothing but page work before it. */
  predicate ResolvedAt(log: seq<Action>, i: nat, j: Job, k: nat) {
    && i < k < |log| && log[k].Resolve? && log[k].job == j
    && forall m :: i < m < k ==> log[m].Upsert? || log[m].Admit?
  }

  lemma {:induction false} TakenThenResolved(log: seq<Action>, i: nat)
    requires Holding(log).Some? && i < |log| && log[i].Take?
    ensures || (exists k: nat :: ResolvedAt(log, i, log[i].job, k))
            || (Holding(log).value == Some(log[i].job) && forall m :: i < m < |log| ==> log[m].Upsert? || log[m].Admit?)
    decreases |log|
  {
    var n := |log| - 1;
    if i < n {
      var p := log[..n];
      TakenThenResolved(p, i);
      if k: nat :| ResolvedAt(p, i, p[i].job, k) {
        assert ResolvedAt(log, i, log[i].job, k);
      } else if log[n].Resolve? {
        assert ResolvedAt(log, i, log[i].job, n);
      }
    }
  }

  lemma {:induction false} PrefixHolds(log: seq<Action>, n: nat)
    requires Holding(log).Some? && n <= |log|
    ensures Holding(log[..n]).Some?
    decreases |log|
  {
    if n < |log| {
      PrefixHolds(log[..|log| - 1], n);
      assert log[..|log| - 1][..n] == log[..n];
    } else {
      assert log[..n] == log;
    }
  }

  /** Between a resolution and a later point at which j is held, j was taken. */
  lemma {:induction false} HeldWasTaken(log: seq<Action>, k: nat, j: Job)
    requires k < |log| && log[k].Resolve? && Holding(log) == Some(Some(j))
    ensures exists t :: k < t < |log| && log[t] == Take(j)
    decreases |log|
  {
    var n := |log| - 1;
    if log[n] != Take(j) {
      HeldWasTaken(log[..n], k, j);
      var t :| k < t < n && log[..n][t] == Take(j);
      assert log[t] == Take(j);
    }
  }

  /** No job is resolved again without having been taken again. */
  lemma ResolvedAgain(log: seq<Action>, k: nat, m: nat)
    requires Holding(log).Some? && k < m < |log| && log[k].Resolve? && log[m].Resolve?
    ensures exists t :: k < t < m && log[t] == Take(log[m].job)
  {
    PrefixHolds(log, m + 1);
    var p := log[..m];
    assert log[..m + 1][..m] == p;
    HeldWasTaken(p, k, log[m].job);
    var t :| k < t < m && p[t] == Take(log[m].job);
    assert log[t] == Take(log[m].job);
  }

  /** k is the resolution of the job taken at i, and no later resolution of that job belongs to it. */
  ghost predicate OnlyResolution(log: seq<Action>, i: nat, k: nat)
    requires i < |log| && log[i].Take?
  {
    && ResolvedAt(log, i, log[i].job, k)
    && forall m :: k < m < |log| && log[m].Resolve? && log[m].job == log[i].job ==>
         exists t :: k < t < m && log[t] == Take(log[m].job)
  }

  /** A log that ends with nothing held has exactly one resolution for each job taken, made before anything
      else is asked for; the job is not resolved again unless it is taken again. */
  lemma ExactlyOneResolution(log: seq<Action>, i: nat)
    requires Holding(log) == Some(None) && i < |log| && log[i].Take?
    ensures exists k: nat :: OnlyResolution(log, i, k)
  {
    TakenThenResolved(log, i);
    var k: nat :| ResolvedAt(log, i, log[i].job, k);
    forall m | k < m < |log| && log[m].Resolve? && log[m].job == log[i].job
      ensures exists t :: k < t < m && log[t] == Take(log[m].job)
    {
      ResolvedAgain(log, k, m);
    }
    assert OnlyResolution(log, i, k);
  }

  /** Which resolutions a class of URL may get. */
  predicate ClassOk(cfg: Config, canonicalize: string -> Url, a: Action) {
    a.Resolve? ==>
      && (a.how.Completed? ==> !cfg.IsVideo(a.job.url))
      && (a.how.Acked? ==> cfg.IsVideo(a.job.url) || canonicalize(a.job.url) == "")
      && (a.how.Ended? ==> ValidReason(a.how.reason))
  }

  function AsCall(job: Job, how: Resolution, now: int): Call {
    match how
    case Acked => Ack(job)
    case Nacked => Nack(job)
    case Completed(n) => CompleteListing(job, n, now)
    case Failed(kind) => Fail(job, kind, now)
    case Ended(reason) => Terminal(job, reason, now)
  }

  /** Every resolution is one the theorems about runs allow, and it discards a listing only if the listing's
      URL is excluded. */
  lemma ResolutionEnabled(cfg: Config, canonicalize: string -> Url, s: State, job: Job, how: Resolution, now: int)
    requires ClassOk(cfg, canonicalize, Resolve(job, how)) && cfg.ClockOk(now)
    ensures Enabled(cfg, s, AsCall(job, how, now))
    ensures AsCall(job, how, now).Ack? && !cfg.IsVideo(job.url) ==> canonicalize(job.url) == ""
  {
  }

  // ---- one turn ----

  /** What one turn of the loop meets. cancelled: the context at the top; lease: None for an error or an empty
      frontier; waited: the limiter let the worker through; stored: the upsert; replies: those of the
      admissions, None or missing for an error. */
  datatype Turn = Turn(cancelled: bool, lease: Option<Job>, waited: bool, outcome: Outcome, stored: bool,
                       replies: seq<Option<Reply>>)

  /** process tells videos from listings by the same pattern as the classifier. */
  predicate Agrees(cfg: Config, t: Turn) {
    t.lease.Some? ==>
      && (t.outcome.PageVideo? ==> cfg.IsVideo(t.lease.value.url))
      && (t.outcome.PageListing? ==> !cfg.IsVideo(t.lease.value.url))
      && (t.outcome.PageNotFound? ==> t.outcome.reason == "404" || t.outcome.reason == "410")
  }

  /** No admission of the links fails. */
  predicate AllReplied(canonicalize: string -> Url, links: seq<string>, replies: seq<Option<Reply>>) {
    forall i :: 0 <= i < |links| && canonicalize(links[i]) != "" ==> i < |replies| && replies[i].Some?
  }

  /** How many links are tried: all of them, or those up to the first whose admission fails. */
  function Tried(canonicalize: string -> Url, links: seq<string>, replies: seq<Option<Reply>>, i: nat): (n: nat)
    requires i <= |links|
    ensures i <= n <= |links|
    decreases |links| - i
  {
    if i == |links| then i
    else if canonicalize(links[i]) != "" && (i >= |replies| || replies[i].None?) then i + 1
    else Tried(canonicalize, links, replies, i + 1)
  }

  /** The admissions of the first n links, those that canonicalise to nothing left out. */
  function Admissions(canonicalize: string -> Url, links: seq<string>, n: nat): seq<Action>
    requires n <= |links|
  {
    if n == 0 then []
    else
      var u := canonicalize(links[n - 1]);
      Admissions(canonicalize, links, n - 1) + if u == "" then [] else [Admit(u)]
  }

  /** The first n links have been admitted without an error, newCount of them answered New. */
  ghost predicate LinksDone(canonicalize: string -> Url, links: seq<string>, replies: seq<Option<Reply>>, n: nat,
                            newCount: nat)
    requires n <= |links|
  {
    && Tried(canonicalize, links, replies, n) == Tried(canonicalize, links, replies, 0)
    && (forall k :: 0 <= k < n && canonicalize(links[k]) != "" ==> k < |replies| && replies[k].Some?)
    && newCount == NewChildren(canonicalize, links, replies, n)
  }

  lemma LinkDone(canonicalize: string -> Url, links: seq<string>, replies: seq<Option<Reply>>, n: nat,
                 newCount: nat, ok: bool, isNew: bool)
    requires n < |links| && LinksDone(canonicalize, links, replies, n, newCount)
    requires var reply := if n < |replies| then replies[n] else None;
             && (ok <==> canonicalize(links[n]) == "" || reply.Some?)
             && (isNew <==> canonicalize(links[n]) != "" && reply == Some(New))
    ensures ok ==> LinksDone(canonicalize, links, replies, n + 1, newCount + if isNew then 1 else 0)
    ensures !ok ==> Tried(canonicalize, links, replies, 0) == n + 1 && !AllReplied(canonicalize, links, replies)
  {
  }

  lemma AdmissionsNext(canonicalize: string -> Url, links: seq<string>, n: nat, before: seq<Action>, l: seq<Action>,
                       l': seq<Action>)
    requires n < |links| && l == before + Admissions(canonicalize, links, n)
    requires l' == l + if canonicalize(links[n]) == "" then [] else [Admit(canonicalize(links[n]))]
    ensures l' == before + Admissions(canonicalize, links, n + 1)
  {
    var x := if canonicalize(links[n]) == "" then [] else [Admit(canonicalize(links[n]))];
    Assoc(before, Admissions(canonicalize, links, n), x);
  }

  /** How many of the first n links were new. */
  function NewChildren(canonicalize: string -> Url, links: seq<string>, replies: seq<Option<Reply>>, n: nat): nat
    requires n <= |links|
  {
    if n == 0 then 0
    else NewChildren(canonicalize, links, replies, n - 1)
         + if canonicalize(links[n - 1]) != "" && n - 1 < |replies| && replies[n - 1] == Some(New) then 1 else 0
  }

  /** The resolution a page deserves. */
  function Verdict(canonicalize: string -> Url, t: Turn): Resolution {
    match t.outcome
    case PageVideo(links, _) => if t.stored && AllReplied(canonicalize, links, t.replies) then Acked else Nacked
    case PageListing(links) =>
      if AllReplied(canonicalize, links, t.replies)
      then Completed(NewChildren(canonicalize, links, t.replies, |links|)) else Nacked
    case PageNotFound(reason) => Ended(reason)
    case PageRetryable(kind) => Failed(kind)
    case PageUnknown => Failed(Strikeable)
    case PageCancelled => Nacked
    case PageInvalid(_) => Failed(RateLimited)
  }

  /** The resolution a turn's job gets: excluded URLs and waits cut short never reach a page. */
  function Settlement(canonicalize: string -> Url, t: Turn): Resolution
    requires t.lease.Some?
  {
    if canonicalize(t.lease.value.url) == "" then Acked else if !t.waited then Nacked else Verdict(canonicalize, t)
  }

  /** What a turn does for its job before it resolves it. */
  function Work(canonicalize: string -> Url, t: Turn): seq<Action>
    requires t.lease.Some?
  {
    if !Processes(canonicalize, t) then []
    else
      match t.outcome
      case PageVideo(links, _) =>
        [Upsert(t.lease.value.url)]
        + if t.stored then Admissions(canonicalize, links, Tried(canonicalize, links, t.replies, 0)) else []
      case PageListing(links) => Admissions(canonicalize, links, Tried(canonicalize, links, t.replies, 0))
      case _ => []
  }

  lemma Joined(log: seq<Action>, a: Action, work: seq<Action>, b: Action)
    ensures log + [a] + work + [b] == log + ([a] + work) + [b]
  {
  }

  lemma WholeTurn(log: seq<Action>, j: Job, work: seq<Action>, b: Action)
    ensures log + [Ask] + [Take(j)] + work + [b] == log + ([Ask, Take(j)] + work + [b])
  {
  }

  /** The actions of one turn. */
  function TurnLog(canonicalize: string -> Url, t: Turn): seq<Action> {
    match t.lease
    case None => [Ask]
    case Some(j) => [Ask, Take(j)] + Work(canonicalize, t) + [Resolve(j, Settlement(canonicalize, t))]
  }

  /** The actions of the first n turns. */
  function LogOf(canonicalize: string -> Url, turns: seq<Turn>, n: nat): seq<Action>
    requires n <= |turns|
  {
    if n == 0 then [] else LogOf(canonicalize, turns, n - 1) + TurnLog(canonicalize, turns[n - 1])
  }

  predicate Processes(canonicalize: string -> Url, t: Turn) {
    t.lease.Some? && canonicalize(t.lease.value.url) != "" && t.waited
  }

  /** The wait for the limiter is cut short while a job that is not excluded is held. */
  predicate CutsShort(canonicalize: string -> Url, t: Turn) {
    t.lease.Some? && canonicalize(t.lease.value.url) != "" && !t.waited
  }

  /** The site answers that it is closed to this worker. */
  predicate MeetsNotice(canonicalize: string -> Url, t: Turn) {
    Processes(canonicalize, t) && t.outcome == PageInvalid(ACCESS_NOTICE)
  }

  /** The loop does not begin turn n with base + the videos stored so far counted. */
  predicate StopsAt(canonicalize: string -> Url, turns: seq<Turn>, n: nat, base: nat, videoLimit: nat)
    requires n < |turns|
  {
    turns[n].cancelled || (videoLimit > 0 && base + StoredIn(canonicalize, turns, n) >= videoLimit)
  }

  /** Nothing stops the loop before turn n, and no turn but the last makes it leave. */
  ghost predicate Continues(canonicalize: string -> Url, turns: seq<Turn>, n: nat, base: nat, videoLimit: nat)
    requires n <= |turns|
  {
    && (forall m :: 0 <= m < n ==> !StopsAt(canonicalize, turns, m, base, videoLimit))
    && (forall m :: 0 <= m < n - 1 ==> !MeetsNotice(canonicalize, turns[m]) && !CutsShort(canonicalize, turns[m]))
  }

  /** How the loop stands after n turns, rate limits aside. */
  ghost predicate Leaves(canonicalize: string -> Url, turns: seq<Turn>, n: nat, base: nat, videoLimit: nat, exit: Exit)
    requires n <= |turns|
  {
    && (exit.AccessBlocked? <==> n > 0 && MeetsNotice(canonicalize, turns[n - 1]))
    && (exit.Interrupted? <==> n > 0 && CutsShort(canonicalize, turns[n - 1]))
    && (exit.Stopped? ==> n < |turns| && StopsAt(canonicalize, turns, n, base, videoLimit))
    && Continues(canonicalize, turns, n, base, videoLimit)
  }

  lemma LeavesStopped(canonicalize: string -> Url, turns: seq<Turn>, n: nat, base: nat, videoLimit: nat)
    requires n < |turns| && Leaves(canonicalize, turns, n, base, videoLimit, Running)
    requires StopsAt(canonicalize, turns, n, base, videoLimit)
    ensures Leaves(canonicalize, turns, n, base, videoLimit, Stopped)
  {
  }

  lemma LeavesTurn(canonicalize: string -> Url, turns: seq<Turn>, n: nat, base: nat, videoLimit: nat, exit: Exit)
    requires n < |turns| && Leaves(canonicalize, turns, n, base, videoLimit, Running)
    requires !StopsAt(canonicalize, turns, n, base, videoLimit) && !exit.Stopped?
    requires exit.AccessBlocked? <==> MeetsNotice(canonicalize, turns[n])
    requires exit.Interrupted? <==> CutsShort(canonicalize, turns[n])
    ensures Leaves(canonicalize, turns, n + 1, base, videoLimit, exit)
  {
    forall m | 0 <= m < n
      ensures !MeetsNotice(canonicalize, turns[m]) && !CutsShort(canonicalize, turns[m])
    {
    }
  }

  lemma Assoc<T>(a: seq<T>, b: seq<T>, c: seq<T>)
    ensures (a + b) + c == a + (b + c)
  {
  }

  /** What a worker has done and found. */
  datatype Record = Record(log: seq<Action>, count: nat, targets: seq<Url>, seen: seq<Outcome>)

  /** r' is r after n turns. */
  ghost predicate After(canonicalize: string -> Url, turns: seq<Turn>, n: nat, r: Record, r': Record)
    requires n <= |turns|
  {
    && r'.log == r.log + LogOf(canonicalize, turns, n)
    && r'.count == r.count + StoredIn(canonicalize, turns, n)
    && r'.targets == TargetsIn(canonicalize, turns, n, r.targets)
    && r'.seen == Processed(canonicalize, turns, n)
  }

  /** r' is r after turn t. */
  ghost predicate Follows(canonicalize: string -> Url, t: Turn, r: Record, r': Record) {
    var stores := Processes(canonicalize, t) && StoresVideo(t);
    && r'.log == r.log + TurnLog(canonicalize, t)
    && r'.count == r.count + (if stores then 1 else 0)
    && r'.targets == r.targets + (if stores && t.outcome.isTarget then [t.lease.value.url] else [])
    && r'.seen == r.seen + if Processes(canonicalize, t) then [t.outcome] else []
  }

  lemma AfterTurn(canonicalize: string -> Url, turns: seq<Turn>, n: nat, r: Record, r1: Record, r2: Record)
    requires n < |turns| && After(canonicalize, turns, n, r, r1) && Follows(canonicalize, turns[n], r1, r2)
    ensures After(canonicalize, turns, n + 1, r, r2)
  {
    var p, x := LogOf(canonicalize, turns, n), TurnLog(canonicalize, turns[n]);
    assert LogOf(canonicalize, turns, n + 1) == p + x;
    Assoc(r.log, p, x);
  }

  /** How a worker that began with r stands after n turns. */
  ghost predicate Stands(canonicalize: string -> Url, turns: seq<Turn>, n: nat, r: Record, r': Record,
                         videoLimit: nat, exit: Exit)
  {
    n <= |turns| && After(canonicalize, turns, n, r, r') && Leaves(canonicalize, turns, n, r.count, videoLimit, exit)
  }

  predicate StoresVideo(t: Turn) {
    t.outcome.PageVideo? && t.stored
  }

  /** How many videos the first n turns stored. */
  function StoredIn(canonicalize: string -> Url, turns: seq<Turn>, n: nat): nat
    requires n <= |turns|
  {
    if n == 0 then 0
    else
      var t := turns[n - 1];
      StoredIn(canonicalize, turns, n - 1) + if Processes(canonicalize, t) && StoresVideo(t) then 1 else 0
  }

  /** The target list base, extended by those of them that are targets. */
  function TargetsIn(canonicalize: string -> Url, turns: seq<Turn>, n: nat, base: seq<Url>): seq<Url>
    requires n <= |turns|
  {
    if n == 0 then base
    else
      var t := turns[n - 1];
      TargetsIn(canonicalize, turns, n - 1, base)
      + if Processes(canonicalize, t) && StoresVideo(t) && t.outcome.isTarget then [t.lease.value.url] else []
  }

  /** The outcomes of the pages processed in the first n turns. */
  function Processed(canonicalize: string -> Url, turns: seq<Turn>, n: nat): seq<Outcome>
    requires n <= |turns|
  {
    if n == 0 then []
    else
      Processed(canonicalize, turns, n - 1)
      + if Processes(canonicalize, turns[n - 1]) then [turns[n - 1].outcome] else []
  }

  datatype Exit = Running | Stopped | Interrupted | AccessBlocked | RateLimitedOut

  class Crawler {
    const cfg: Config
    const canonicalize: string -> Url
    var count: nat                  // videos recorded
    var targets: seq<Url>
    var log: seq<Action>

    ghost predicate Disciplined(held: Option<Job>)
      reads this
    {
      Holding(log) == Some(held) && forall a :: a in log ==> ClassOk(cfg, canonicalize, a)
    }

    constructor (cfg: Config, canonicalize: string -> Url)
      ensures this.cfg == cfg && this.canonicalize == canonicalize
      ensures count == 0 && targets == [] && log == [] && Disciplined(None)
    {
      this.cfg, this.canonicalize := cfg, canonicalize;
      count, targets, log := 0, [], [];
    }

    method Note(a: Action)
      requires Holding(log).Some? && forall x :: x in log ==> ClassOk(cfg, canonicalize, x)
      requires ClassOk(cfg, canonicalize, a)
      modifies this`log
      ensures log == old(log) + [a] && Holding(log) == Holding(old(log) + [a])
      ensures forall x :: x in log ==> ClassOk(cfg, canonicalize, x)
      ensures log[..|log| - 1] == old(log)
    {
      log := log + [a];
    }

    /** The one resolution call of a turn. Its error, if any, is only logged. */
    method ResolveJob(job: Job, how: Resolution)
      requires Disciplined(Some(job)) && ClassOk(cfg, canonicalize, Resolve(job, how))
      modifies this`log
      ensures Disciplined(None) && log == old(log) + [Resolve(job, how)]
    {
      Note(Resolve(job, how));
    }

    /** admitURL: nothing to admit is no error. */
    method AdmitUrl(ghost job: Job, url: Url, reply: Option<Reply>) returns (isNew: bool, ok: bool)
      requires Disciplined(Some(job))
      modifies this`log
      ensures Disciplined(Some(job)) && log == old(log) + if url == "" then [] else [Admit(url)]
      ensures (ok <==> url == "" || reply.Some?) && (isNew <==> url != "" && reply == Some(New))
    {
      if url == "" {
        return false, true;
      }
      Note(Admit(url));
      return reply == Some(New), reply.Some?;
    }

    /** enqueueChildren: stops at the first error. */
    method EnqueueChildren(ghost job: Job, links: seq<string>, replies: seq<Option<Reply>>)
      returns (newCount: nat, ok: bool)
      requires Disciplined(Some(job))
      modifies this`log
      ensures Disciplined(Some(job))
      ensures log == old(log) + Admissions(canonicalize, links, Tried(canonicalize, links, replies, 0))
      ensures ok <==> AllReplied(canonicalize, links, replies)
      ensures ok ==> newCount == NewChildren(canonicalize, links, replies, |links|)
    {
      newCount, ok := 0, true;
      ghost var before := log;
      var i := 0;
      while i < |links|
        invariant i <= |links| && ok && Disciplined(Some(job)) && log == before + Admissions(canonicalize, links, i)
        invariant LinksDone(canonicalize, links, replies, i, newCount)
      {
        ghost var l := log;
        var isNew;
        isNew, ok := AdmitUrl(job, canonicalize(links[i]), if i < |replies| then replies[i] else None);
        AdmissionsNext(canonicalize, links, i, before, l, log);
        LinkDone(canonicalize, links, replies, i, newCount, ok, isNew);
        if !ok {
          return;
        }
        newCount, i := newCount + if isNew then 1 else 0, i + 1;
      }
    }

    method RecordVideo(url: Url, isTarget: bool)
      modifies this`count, this`targets
      ensures count == old(count) + 1
      ensures targets == if isTarget then old(targets) + [url] else old(targets)
    {
      count := count + 1;
      if isTarget {
        targets := targets + [url];
      }
    }

    /** A video page: stored, then counted, then its links, then the resolution. */
    method HandleVideo(job: Job, t: Turn) returns (stored: bool)
      requires Disciplined(Some(job)) && t.lease == Some(job) && Agrees(cfg, t)
      requires Processes(canonicalize, t) && t.outcome.PageVideo?
      modifies this
      ensures Disciplined(None)
      ensures log == old(log) + Work(canonicalize, t) + [Resolve(job, Verdict(canonicalize, t))]
      ensures count == old(count) + if t.stored then 1 else 0
      ensures targets == old(targets) + if t.stored && t.outcome.isTarget then [job.url] else []
      ensures stored <==> Verdict(canonicalize, t).Acked?
    {
      Note(Upsert(job.url));
      if !t.stored {
        ResolveJob(job, Nacked);
        return false;
      }
      RecordVideo(job.url, t.outcome.isTarget);
      ghost var before := log;
      var _, ok := EnqueueChildren(job, t.outcome.links, t.replies);
      Joined(old(log), Upsert(job.url), log[|before|..], Resolve(job, if ok then Acked else Nacked));
      ResolveJob(job, if ok then Acked else Nacked);
      return ok;
    }

    /** handleOutcome: exactly one resolution, whatever fails on the way. A video counts only once stored. */
    method HandleOutcome(job: Job, t: Turn) returns (stored: bool)
      requires Disciplined(Some(job)) && t.lease == Some(job) && Agrees(cfg, t)
      modifies this
      requires Processes(canonicalize, t)
      ensures Disciplined(None)
      ensures log == old(log) + Work(canonicalize, t) + [Resolve(job, Verdict(canonicalize, t))]
      ensures count == old(count) + if t.outcome.PageVideo? && t.stored then 1 else 0
      ensures targets == old(targets) + if t.outcome.PageVideo? && t.stored && t.outcome.isTarget
                                        then [job.url] else []
      ensures stored <==> t.outcome.PageVideo? && Verdict(canonicalize, t).Acked?
    {
      stored := false;
      match t.outcome
      case PageVideo(_, _) =>
        stored := HandleVideo(job, t);
      case PageListing(links) =>
        var n, ok := EnqueueChildren(job, links, t.replies);
        ResolveJob(job, if ok then Completed(n) else Nacked);
      case PageNotFound(reason) =>
        ResolveJob(job, Ended(reason));
      case PageRetryable(kind) =>
        ResolveJob(job, Failed(kind));
      case PageInvalid(_) =>
        ResolveJob(job, Failed(RateLimited));
      case PageUnknown =>
        ResolveJob(job, Failed(Strikeable));
      case PageCancelled =>
        ResolveJob(job, Nacked);
    }

    /** A page processed and resolved; whether the worker retires. */
    method Visit(job: Job, t: Turn, failures: WorkerFailures) returns (exit: Exit)
      requires Disciplined(Some(job)) && t.lease == Some(job) && Agrees(cfg, t) && Processes(canonicalize, t)
      requires failures.Valid() && failures.consecutiveRateLimited < RATE_LIMIT_STOP
      modifies this, failures
      ensures Disciplined(None) && failures.Valid() && failures.seen == old(failures.seen) + [t.outcome]
      ensures log == old(log) + Work(canonicalize, t) + [Resolve(job, Settlement(canonicalize, t))]
      ensures count == old(count) + if StoresVideo(t) then 1 else 0
      ensures targets == old(targets) + if StoresVideo(t) && t.outcome.isTarget then [job.url] else []
      ensures failures.consecutiveRateLimited <= RATE_LIMIT_STOP
      ensures exit.RateLimitedOut? <==> failures.consecutiveRateLimited == RATE_LIMIT_STOP
      ensures exit.AccessBlocked? <==> t.outcome == PageInvalid(ACCESS_NOTICE)
      ensures exit.RateLimitedOut? || exit.AccessBlocked? || exit.Running?
    {
      failures.Observe(t.outcome);
      var _ := HandleOutcome(job, t);
      if t.outcome == PageInvalid(ACCESS_NOTICE) {
        return AccessBlocked;
      }
      if failures.consecutiveRateLimited >= RATE_LIMIT_STOP {
        return RateLimitedOut;
      }
      return Running;
    }

    /** A job just taken: skipped if excluded, given back if the wait was cut short, else visited. */
    method Settle(job: Job, t: Turn, failures: WorkerFailures) returns (exit: Exit)
      requires Disciplined(Some(job)) && t.lease == Some(job) && Agrees(cfg, t)
      requires failures.Valid() && failures.consecutiveRateLimited < RATE_LIMIT_STOP
      modifies this, failures
      ensures Disciplined(None) && failures.Valid() && failures.consecutiveRateLimited <= RATE_LIMIT_STOP
      ensures exit.RateLimitedOut? <==> failures.consecutiveRateLimited == RATE_LIMIT_STOP
      ensures failures.seen == old(failures.seen) + if Processes(canonicalize, t) then [t.outcome] else []
      ensures exit.AccessBlocked? <==> Processes(canonicalize, t) && t.outcome == PageInvalid(ACCESS_NOTICE)
      ensures log == old(log) + Work(canonicalize, t) + [Resolve(job, Settlement(canonicalize, t))]
      ensures exit.Interrupted? <==> CutsShort(canonicalize, t)
      ensures count == old(count) + if Processes(canonicalize, t) && StoresVideo(t) then 1 else 0
      ensures targets == old(targets) + if Processes(canonicalize, t) && StoresVideo(t) && t.outcome.isTarget
                                        then [job.url] else []
      ensures !exit.Stopped?
    {
      if canonicalize(job.url) == "" {
        ResolveJob(job, Acked);
        return Running;
      }
      if !t.waited {
        ResolveJob(job, Nacked);
        return Interrupted;
      }
      exit := Visit(job, t, failures);
    }

    /** One turn: ask for a job and, if there is one, see it resolved. */
    method TakeTurn(t: Turn, failures: WorkerFailures) returns (exit: Exit)
      requires Disciplined(None) && Agrees(cfg, t)
      requires failures.Valid() && failures.consecutiveRateLimited < RATE_LIMIT_STOP
      modifies this, failures
      ensures Disciplined(None) && failures.Valid() && failures.consecutiveRateLimited <= RATE_LIMIT_STOP
      ensures exit.RateLimitedOut? <==> failures.consecutiveRateLimited == RATE_LIMIT_STOP
      ensures failures.seen == old(failures.seen) + if Processes(canonicalize, t) then [t.outcome] else []
      ensures exit.AccessBlocked? <==> Processes(canonicalize, t) && t.outcome == PageInvalid(ACCESS_NOTICE)
      ensures log == old(log) + TurnLog(canonicalize, t)
      ensures exit.Interrupted? <==> CutsShort(canonicalize, t)
      ensures count == old(count) + if Processes(canonicalize, t) && StoresVideo(t) then 1 else 0
      ensures targets == old(targets) + if Processes(canonicalize, t) && StoresVideo(t) && t.outcome.isTarget
                                        then [t.lease.value.url] else []
      ensures !exit.Stopped?
    {
      Note(Ask);
      if t.lease.None? {
        return Running;
      }
      var job := t.lease.value;
      Note(Take(job));
      exit := Settle(job, t, failures);
      WholeTurn(old(log), job, Work(canonicalize, t), Resolve(job, Settlement(canonicalize, t)));
    }

    /** The loop itself; the counters are read off the history n turns give. */
    method RunTurns(turns: seq<Turn>, videoLimit: nat) returns (exit: Exit, ghost n: nat, ghost seen: seq<Outcome>)
      requires Disciplined(None) && forall t :: t in turns ==> Agrees(cfg, t)
      modifies this
      ensures Disciplined(None) && n <= |turns| && seen == Processed(canonicalize, turns, n)
      ensures log == old(log) + LogOf(canonicalize, turns, n)
      ensures count == old(count) + StoredIn(canonicalize, turns, n)
      ensures targets == TargetsIn(canonicalize, turns, n, old(targets))
      ensures TallyOf(seen).consecutiveRateLimited <= RATE_LIMIT_STOP
      ensures exit.RateLimitedOut? <==> TallyOf(seen).consecutiveRateLimited == RATE_LIMIT_STOP
      ensures Leaves(canonicalize, turns, n, old(count), videoLimit, exit) && (exit.Running? ==> n == |turns|)
    {
      var failures := new WorkerFailures();
      var i := 0;
      exit := Running;
      ghost var r := Record(log, count, targets, []);
      while i < |turns| && exit.Running?
        invariant i <= |turns| && Disciplined(None)
        invariant fresh(failures) && failures.Valid() && failures.consecutiveRateLimited <= RATE_LIMIT_STOP
        invariant exit.RateLimitedOut? <==> failures.consecutiveRateLimited == RATE_LIMIT_STOP
        invariant Stands(canonicalize, turns, i, r, Record(log, count, targets, failures.seen), videoLimit, exit)
        decreases |turns| - i, exit.Running?
      {
        exit, i := NextTurn(turns, i, videoLimit, failures, r);
      }
      n, seen := i, failures.seen;
    }

    /** The loop's check at the top, and one turn if it passes. */
    method NextTurn(turns: seq<Turn>, i: nat, videoLimit: nat, failures: WorkerFailures, ghost r: Record)
      returns (exit: Exit, i': nat)
      requires Disciplined(None) && i < |turns| && Agrees(cfg, turns[i])
      requires failures.Valid() && failures.consecutiveRateLimited < RATE_LIMIT_STOP
      requires Stands(canonicalize, turns, i, r, Record(log, count, targets, failures.seen), videoLimit, Running)
      modifies this, failures
      ensures Disciplined(None) && failures.Valid() && failures.consecutiveRateLimited <= RATE_LIMIT_STOP
      ensures exit.RateLimitedOut? <==> failures.consecutiveRateLimited == RATE_LIMIT_STOP
      ensures i' == if exit.Stopped? then i else i + 1
      ensures Stands(canonicalize, turns, i', r, Record(log, count, targets, failures.seen), videoLimit, exit)
    {
      if turns[i].cancelled || (videoLimit > 0 && count >= videoLimit) {
        LeavesStopped(canonicalize, turns, i, r.count, videoLimit);
        return Stopped, i;
      }
      ghost var now := Record(log, count, targets, failures.seen);
      exit := TakeTurn(turns[i], failures);
      LeavesTurn(canonicalize, turns, i, r.count, videoLimit, exit);
      AfterTurn(canonicalize, turns, i, r, now, Record(log, count, targets, failures.seen));
      i' := i + 1;
    }

    /** workerLoop over the turns it meets, of which it takes n: all of them, unless it is told to stop or reaches the
        limit, a wait is cut short, the site closes, or the last five pages were all answered with a rate limit. */
    method Loop(turns: seq<Turn>, videoLimit: nat) returns (exit: Exit, ghost n: nat, ghost seen: seq<Outcome>)
      requires Disciplined(None) && forall t :: t in turns ==> Agrees(cfg, t)
      modifies this
      ensures Disciplined(None) && n <= |turns| && seen == Processed(canonicalize, turns, n)
      ensures log == old(log) + LogOf(canonicalize, turns, n)
      ensures count == old(count) + StoredIn(canonicalize, turns, n)
      ensures targets == TargetsIn(canonicalize, turns, n, old(targets))
      ensures exit.RateLimitedOut? <==> FiveRateLimits(Effective(seen))
      ensures exit.AccessBlocked? <==> n > 0 && MeetsNotice(canonicalize, turns[n - 1])
      ensures exit.Interrupted? <==> n > 0 && CutsShort(canonicalize, turns[n - 1])
      ensures exit.Stopped? ==> n < |turns| && StopsAt(canonicalize, turns, n, old(count), videoLimit)
      ensures exit.Running? ==> n == |turns|
      ensures Continues(canonicalize, turns, n, old(count), videoLimit)
    {
      exit, n, seen := RunTurns(turns, videoLimit);
      FiveInARow(seen);
    }
  }
}
