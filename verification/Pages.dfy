/** What the worker's log shows between taking a job and resolving it, and what each kind of page does to the
    frontier's record of its URL. */
module Pages {
  import opened Keyspace
  import opened Scripts
  import opened Discipline
  import opened Runs
  import opened Laws
  import opened Worker

  // ---- links ----

  /** The admission of link k comes right after those of the links before it. */
  lemma {:induction false} AdmissionAt(canonicalize: string -> Url, links: seq<string>, k: nat, n: nat)
    requires k < n <= |links| && canonicalize(links[k]) != ""
    ensures var p, all := |Admissions(canonicalize, links, k)|, Admissions(canonicalize, links, n);
            p < |all| && all[p] == Admit(canonicalize(links[k]))
  {
    if k < n - 1 {
      AdmissionAt(canonicalize, links, k, n - 1);
    }
  }

  /** There are no others: as many as links that canonicalise to something. */
  lemma {:induction false} AdmissionCount(canonicalize: string -> Url, links: seq<string>, n: nat)
    requires n <= |links|
    ensures |Admissions(canonicalize, links, n)| == |Below(n, HasUrl(canonicalize, links))|
  {
    var p := HasUrl(canonicalize, links);
    if n == 0 {
      BelowNext(0, p);
    } else {
      AdmissionCount(canonicalize, links, n - 1);
      BelowNext(n - 1, p);
      AdmissionsLength(canonicalize, links, n - 1);
    }
  }

  lemma AdmissionsLength(canonicalize: string -> Url, links: seq<string>, n: nat)
    requires n < |links|
    ensures |Admissions(canonicalize, links, n + 1)|
            == |Admissions(canonicalize, links, n)| + if HasUrl(canonicalize, links)(n) then 1 else 0
  {
  }

  lemma {:induction false} AdmissionsAdmit(canonicalize: string -> Url, links: seq<string>, n: nat)
    requires n <= |links|
    ensures forall a :: a in Admissions(canonicalize, links, n) ==> a.Admit?
  {
    if n > 0 {
      AdmissionsAdmit(canonicalize, links, n - 1);
    }
  }

  /** Link i canonicalises to something and its admission is answered New. */
  predicate IsNew(canonicalize: string -> Url, links: seq<string>, replies: seq<Option<Reply>>, i: int) {
    0 <= i < |links| && i < |replies| && canonicalize(links[i]) != "" && replies[i] == Some(New)
  }

  /** The links, among the first n, whose admission is answered New. */
  function NewLinks(canonicalize: string -> Url, links: seq<string>, replies: seq<Option<Reply>>, n: nat): set<int> {
    Below(n, i => IsNew(canonicalize, links, replies, i))
  }

  lemma {:induction false} NewChildrenLaw(canonicalize: string -> Url, links: seq<string>,
                                          replies: seq<Option<Reply>>, n: nat)
    requires n <= |links|
    ensures NewChildren(canonicalize, links, replies, n) == |NewLinks(canonicalize, links, replies, n)|
  {
    var p := i => IsNew(canonicalize, links, replies, i);
    if n == 0 {
      BelowNext(0, p);
    } else {
      NewChildrenLaw(canonicalize, links, replies, n - 1);
      BelowNext(n - 1, p);
    }
  }

  /** The admission of link i fails. */
  predicate Breaks(canonicalize: string -> Url, links: seq<string>, replies: seq<Option<Reply>>, i: nat) {
    i < |links| && canonicalize(links[i]) != "" && (i >= |replies| || replies[i].None?)
  }

  /** All links are tried, unless the admission of one fails; then those up to the first that does. */
  lemma {:induction false} TriedLaw(canonicalize: string -> Url, links: seq<string>, replies: seq<Option<Reply>>,
                                    i: nat)
    requires i <= |links|
    ensures var n := Tried(canonicalize, links, replies, i);
            && (forall k :: i <= k < n - 1 ==> !Breaks(canonicalize, links, replies, k))
            && (n == |links| || (n > i && Breaks(canonicalize, links, replies, n - 1)))
            && (n > i && !Breaks(canonicalize, links, replies, n - 1) ==> n == |links|)
    decreases |links| - i
  {
    if i < |links| && !Breaks(canonicalize, links, replies, i) {
      TriedLaw(canonicalize, links, replies, i + 1);
    }
  }

  // ---- from the log to the page ----

  predicate IsWork(a: Action) {
    a.Upsert? || a.Admit?
  }

  lemma WorkIsWork(canonicalize: string -> Url, t: Turn)
    requires t.lease.Some?
    ensures forall a :: a in Work(canonicalize, t) ==> IsWork(a)
  {
    if t.outcome.PageVideo? || t.outcome.PageListing? {
      AdmissionsAdmit(canonicalize, t.outcome.links, Tried(canonicalize, t.outcome.links, t.replies, 0));
    }
  }

  /** In the actions of one turn. */
  lemma InTurn(canonicalize: string -> Url, t: Turn, l: seq<Action>, i: nat, k: nat)
    requires l == TurnLog(canonicalize, t) && i < k < |l| && l[i].Take? && l[k].Resolve?
    ensures t.lease == Some(l[i].job) && l[i + 1..k] == Work(canonicalize, t)
    ensures l[k] == Resolve(l[i].job, Settlement(canonicalize, t))
  {
    WorkIsWork(canonicalize, t);
    var w := Work(canonicalize, t);
    assert forall x :: 2 <= x < 2 + |w| ==> l[x] == w[x - 2] && l[x] in w;
    assert i == 1 && k == 2 + |w|;
  }

  lemma TurnAsksFirst(canonicalize: string -> Url, t: Turn)
    ensures TurnLog(canonicalize, t) != [] && TurnLog(canonicalize, t)[0] == Ask
  {
  }

  /** What l shows between the Take at i and the resolution at k is the work of t. */
  predicate IsTurnOf(canonicalize: string -> Url, t: Turn, l: seq<Action>, i: nat, k: nat) {
    && i < k < |l| && l[i].Take? && t.lease == Some(l[i].job) && l[i + 1..k] == Work(canonicalize, t)
    && l[k] == Resolve(l[i].job, Settlement(canonicalize, t))
  }

  lemma LaterPart(canonicalize: string -> Url, t: Turn, p: seq<Action>, i: nat, k: nat, l: seq<Action>)
    requires l == p + TurnLog(canonicalize, t) && |p| <= i < k < |l| && l[i].Take? && l[k].Resolve?
    ensures IsTurnOf(canonicalize, t, l, i, k)
  {
    var x := TurnLog(canonicalize, t);
    assert l[i] == x[i - |p|] && l[k] == x[k - |p|];
    InTurn(canonicalize, t, x, i - |p|, k - |p|);
    assert l[i + 1..k] == x[i - |p| + 1..k - |p|];
  }

  lemma EarlierPart(p: seq<Action>, x: seq<Action>, i: nat, k: nat)
    requires i < |p| && x != [] && x[0] == Ask && p[i].Take? && ResolvedAt(p + x, i, p[i].job, k)
    ensures k < |p| && ResolvedAt(p, i, p[i].job, k)
  {
    assert (p + x)[|p|] == Ask;
    forall m | i < m < |p| && m < k
      ensures p[m].Upsert? || p[m].Admit?
    {
      assert (p + x)[m] == p[m];
    }
  }

  lemma StillTurnOf(canonicalize: string -> Url, t: Turn, p: seq<Action>, x: seq<Action>, i: nat, k: nat)
    requires IsTurnOf(canonicalize, t, p, i, k)
    ensures IsTurnOf(canonicalize, t, p + x, i, k)
  {
    assert (p + x)[i + 1..k] == p[i + 1..k];
  }

  /** What the log shows between a job's Take and its resolution is the work of one turn. */
  lemma {:induction false} TurnOf(canonicalize: string -> Url, turns: seq<Turn>, n: nat, l: seq<Action>, i: nat, k: nat)
    returns (m: nat)
    requires n <= |turns| && l == LogOf(canonicalize, turns, n) && i < |l| && l[i].Take?
    requires ResolvedAt(l, i, l[i].job, k)
    ensures m < n && IsTurnOf(canonicalize, turns[m], l, i, k)
    decreases n
  {
    var p, x := LogOf(canonicalize, turns, n - 1), TurnLog(canonicalize, turns[n - 1]);
    assert l == p + x;
    TurnAsksFirst(canonicalize, turns[n - 1]);
    if i >= |p| {
      m := n - 1;
      LaterPart(canonicalize, turns[m], p, i, k, l);
    } else {
      EarlierPart(p, x, i, k);
      m := TurnOf(canonicalize, turns, n - 1, p, i, k);
      StillTurnOf(canonicalize, turns[m], p, x, i, k);
    }
  }

  /** The work and the resolution of the job of one turn, page by page. */
  lemma PageLaw(cfg: Config, canonicalize: string -> Url, t: Turn, j: Job, work: seq<Action>, how: Resolution)
    requires t.lease == Some(j) && Agrees(cfg, t)
    requires work == Work(canonicalize, t) && how == Settlement(canonicalize, t)
    ensures canonicalize(j.url) == "" ==> work == [] && how == Acked
    ensures canonicalize(j.url) != "" && !t.waited ==> work == [] && how == Nacked
    ensures canonicalize(j.url) != "" && t.waited ==>
      match t.outcome
      case PageNotFound(reason) => work == [] && how == Ended(reason)
      case PageRetryable(kind) => work == [] && how == Failed(kind)
      case PageUnknown => work == [] && how == Failed(Strikeable)
      case PageInvalid(_) => work == [] && how == Failed(RateLimited)
      case PageCancelled => work == [] && how == Nacked
      case PageVideo(links, _) => VideoLaw(canonicalize, t, j, links, work, how)
      case PageListing(links) => ListingLaw(canonicalize, t, links, work, how)
  {
    if t.outcome.PageVideo? || t.outcome.PageListing? {
      var links := t.outcome.links;
      LinksLaw(canonicalize, links, t.replies);
      NewChildrenLaw(canonicalize, links, t.replies, |links|);
    }
  }

  /** No admission of the links fails. */
  ghost predicate NoneBreaks(canonicalize: string -> Url, links: seq<string>, replies: seq<Option<Reply>>) {
    forall k: nat :: k < |links| ==> !Breaks(canonicalize, links, replies, k)
  }

  /** The admissions up to the first that fails. */
  ghost predicate BrokenOff(canonicalize: string -> Url, links: seq<string>, replies: seq<Option<Reply>>,
                            work: seq<Action>)
  {
    exists n: nat :: n < |links| && Breaks(canonicalize, links, replies, n)
      && (forall k: nat :: k < n ==> !Breaks(canonicalize, links, replies, k))
      && work == Admissions(canonicalize, links, n + 1)
  }

  lemma LinksLaw(canonicalize: string -> Url, links: seq<string>, replies: seq<Option<Reply>>)
    ensures AllReplied(canonicalize, links, replies) <==> NoneBreaks(canonicalize, links, replies)
    ensures var n := Tried(canonicalize, links, replies, 0);
            if NoneBreaks(canonicalize, links, replies) then n == |links|
            else BrokenOff(canonicalize, links, replies, Admissions(canonicalize, links, n))
  {
    var n := Tried(canonicalize, links, replies, 0);
    TriedLaw(canonicalize, links, replies, 0);
    if NoneBreaks(canonicalize, links, replies) {
      forall i | 0 <= i < |links| && canonicalize(links[i]) != ""
        ensures i < |replies| && replies[i].Some?
      {
        assert !Breaks(canonicalize, links, replies, i);
      }
    } else {
      var k: nat :| k < |links| && Breaks(canonicalize, links, replies, k);
      assert Breaks(canonicalize, links, replies, n - 1);
    }
  }

  /** A video is written first; it is acknowledged only with all its links admitted. */
  ghost predicate VideoLaw(canonicalize: string -> Url, t: Turn, j: Job, links: seq<string>, work: seq<Action>,
                           how: Resolution)
  {
    if !t.stored then work == [Upsert(j.url)] && how == Nacked
    else
      && work != [] && work[0] == Upsert(j.url)
      && if NoneBreaks(canonicalize, links, t.replies)
         then work[1..] == Admissions(canonicalize, links, |links|) && how == Acked
         else BrokenOff(canonicalize, links, t.replies, work[1..]) && how == Nacked
  }

  /** A listing is completed only with all its links admitted, with the number of those answered New. */
  ghost predicate ListingLaw(canonicalize: string -> Url, t: Turn, links: seq<string>, work: seq<Action>,
                             how: Resolution)
  {
    if NoneBreaks(canonicalize, links, t.replies)
    then && work == Admissions(canonicalize, links, |links|)
         && how == Completed(|NewLinks(canonicalize, links, t.replies, |links|)|)
    else BrokenOff(canonicalize, links, t.replies, work) && how == Nacked
  }

  /** What the log of n turns shows between the Take of a job at i and its resolution at k. A video is acknowledged
      only after its write and the admission of every link, in order; a listing is completed only after the admission
      of every link, with the number answered New; any other end of a job comes without page work. */
  lemma LogShows(cfg: Config, canonicalize: string -> Url, turns: seq<Turn>, n: nat, l: seq<Action>, i: nat, k: nat)
    returns (t: Turn)
    requires n <= |turns| && (forall t :: t in turns ==> Agrees(cfg, t)) && l == LogOf(canonicalize, turns, n)
    requires i < |l| && l[i].Take? && ResolvedAt(l, i, l[i].job, k)
    ensures t in turns && t.lease == Some(l[i].job)
    ensures canonicalize(l[i].job.url) == "" ==> l[i + 1..k] == [] && l[k].how == Acked
    ensures canonicalize(l[i].job.url) != "" && l[k].how == Acked ==>
      && t.outcome.PageVideo? && t.stored
      && l[i + 1..k] == [Upsert(l[i].job.url)] + Admissions(canonicalize, t.outcome.links, |t.outcome.links|)
    ensures l[k].how.Completed? ==>
      && t.outcome.PageListing?
      && l[i + 1..k] == Admissions(canonicalize, t.outcome.links, |t.outcome.links|)
      && l[k].how.newChildren == |NewLinks(canonicalize, t.outcome.links, t.replies, |t.outcome.links|)|
    ensures l[k].how.Ended? ==> l[i + 1..k] == [] && t.outcome == PageNotFound(l[k].how.reason)
    ensures l[k].how.Failed? ==>
      && l[i + 1..k] == []
      && if l[k].how.kind == Strikeable then t.outcome == PageUnknown || t.outcome == PageRetryable(Strikeable)
         else t.outcome.PageInvalid? || t.outcome == PageRetryable(RateLimited)
  {
    var m := TurnOf(canonicalize, turns, n, l, i, k);
    t := turns[m];
    PageLaw(cfg, canonicalize, t, l[i].job, l[i + 1..k], l[k].how);
    if t.outcome.PageVideo? && l[k].how == Acked && canonicalize(l[i].job.url) != "" {
      assert l[i + 1..k] == [l[i + 1..k][0]] + l[i + 1..k][1..];
    }
  }

  // ---- from the page to the frontier ----

  /** The page says that the URL is gone, or gives a strike. */
  predicate Harsh(o: Outcome) {
    o.PageNotFound? || o == PageUnknown || o == PageRetryable(Strikeable)
  }

  /** u is dead in t and was not in s. */
  predicate Buries(s: State, t: State, u: Url) {
    u in t.dead && u !in s.dead
  }

  predicate StrikesGrow(s: State, t: State, u: Url) {
    u in t.strikes && (u !in s.strikes || t.strikes[u] > s.strikes[u])
  }

  /** Only a terminal page or a strikeable failure, with the lease of a job of u, buries u or adds to its strikes. */
  lemma OnlyPenalties(cfg: Config, s: State, c: Call, t: State, u: Url)
    requires cfg.Valid() && Consistent(cfg, s) && Enabled(cfg, s, c) && t == Exec(cfg, s, c)
    requires Buries(s, t, u) || StrikesGrow(s, t, u)
    ensures IsResolution(c) && c.job in s.lease && c.job.url == u
    ensures c.Terminal? || (c.Fail? && c.kind == Strikeable)
  {
    if IsResolution(c) {
      ResolutionPenalties(cfg, s, c, t, u);
    } else if c.Lease? || c.Promote? || c.Reap? || c.Sweep? {
      MovesPenaliseNone(cfg, s, c, t);
    } else {
      AdmissionsPenaliseNone(cfg, s, c, t);
    }
  }

  lemma MovesPenaliseNone(cfg: Config, s: State, c: Call, t: State)
    requires cfg.Valid() && Consistent(cfg, s) && Enabled(cfg, s, c) && t == Exec(cfg, s, c)
    requires c.Lease? || c.Promote? || c.Reap? || c.Sweep?
    ensures t.dead == s.dead && t.strikes == s.strikes
  {
    var r := Answer(cfg, s, c);
    match c
    case Lease(now) => LeaseLaw(cfg, s, now, t, r);
    case Promote(now, due) => PromoteLaw(cfg, s, now, due, t, r);
    case Reap(now, expired) => ReapLaw(cfg, s, now, expired, t, r);
    case Sweep => SweepLaw(cfg, s, t, r);
  }

  lemma AdmissionsPenaliseNone(cfg: Config, s: State, c: Call, t: State)
    requires cfg.Valid() && Enabled(cfg, s, c) && t == Exec(cfg, s, c)
    requires c.AdmitVideo? || c.AdmitListing? || c.SeedListing? || c.Schedule?
    ensures t.dead.Keys <= s.dead.Keys && t.strikes == s.strikes
  {
    var r := Answer(cfg, s, c);
    match c
    case AdmitVideo(v, now, added) => AdmitVideoLaw(cfg, s, v, now, added, t, r);
    case AdmitListing(v, now) => AdmitListingLaw(cfg, s, v, now, t, r);
    case SeedListing(v) => SeedLaw(cfg, s, v, t);
    case Schedule(now, due) => ScheduleLaw(cfg, s, now, due, t, r);
  }

  lemma ResolutionPenalties(cfg: Config, s: State, c: Call, t: State, u: Url)
    requires cfg.Valid() && IsResolution(c) && t == Exec(cfg, s, c)
    requires Buries(s, t, u) || StrikesGrow(s, t, u)
    ensures c.job in s.lease && c.job.url == u && (c.Terminal? || (c.Fail? && c.kind == Strikeable))
  {
    StaleLaw(cfg, s, c);
    if c.job in s.lease {
      match c
      case Ack(j) => AckLaw(cfg, s, j, t);
      case Nack(j) => NackLaw(cfg, s, j, t);
      case CompleteListing(j, n, now) => var b, full := CompleteLaw(cfg, s, j, n, now, t);
      case Terminal(j, reason, now) => TerminalLaw(cfg, s, j, reason, now, t);
      case Fail(j, kind, now) => FailPenalties(cfg, s, j, kind, now, t, u);
    }
  }

  lemma FailPenalties(cfg: Config, s: State, j: Job, kind: FailClass, now: int, t: State, u: Url)
    requires cfg.Valid() && j in s.lease && t == Exec(cfg, s, Fail(j, kind, now))
    requires Buries(s, t, u) || StrikesGrow(s, t, u)
    ensures j.url == u && kind == Strikeable
  {
    DiedIff(cfg, s, j, kind, now);
    if Answer(cfg, s, Fail(j, kind, now)) == Died {
      DeathLaw(cfg, s, j, kind, now, t);
    } else {
      var n, m, wait := DelayLaw(cfg, s, j, kind, now, t);
    }
  }

  /** Only a page that was fetched, for a URL that is not excluded, and that is harsh, buries the URL of the job or
      adds to its strikes: no cancelled, rate-limited, invalid or good page does, and no other URL suffers. */
  lemma OnlyHarshPages(cfg: Config, canonicalize: string -> Url, s: State, turn: Turn, now: int, t: State, u: Url)
    requires cfg.Valid() && turn.lease.Some? && Agrees(cfg, turn)
    requires t == Exec(cfg, s, AsCall(turn.lease.value, Settlement(canonicalize, turn), now))
    requires Buries(s, t, u) || StrikesGrow(s, t, u)
    ensures u == turn.lease.value.url && canonicalize(u) != "" && turn.waited && Harsh(turn.outcome)
  {
    var j, how := turn.lease.value, Settlement(canonicalize, turn);
    ResolutionPenalties(cfg, s, AsCall(j, how, now), t, u);
    PageLaw(cfg, canonicalize, turn, j, Work(canonicalize, turn), how);
  }

  /** A cancelled page gives the URL back as it was: a fresh job in ready, and no counter, due time or dead entry
      changed. */
  lemma CancelledGivesBack(cfg: Config, canonicalize: string -> Url, s: State, turn: Turn, now: int, t: State)
    requires cfg.Valid() && turn.lease.Some? && Agrees(cfg, turn) && turn.lease.value in s.lease
    requires canonicalize(turn.lease.value.url) != "" && (!turn.waited || turn.outcome == PageCancelled)
    requires t == Exec(cfg, s, AsCall(turn.lease.value, Settlement(canonicalize, turn), now))
    ensures var j := turn.lease.value;
            t == s.(jobSeq := s.jobSeq + 1, ready := [Job(s.jobSeq + 1, j.url)] + s.ready,
                    lease := s.lease - {j}, processing := Remove(s.processing, j))
  {
    PageLaw(cfg, canonicalize, turn, turn.lease.value, Work(canonicalize, turn), Settlement(canonicalize, turn));
    NackLaw(cfg, s, turn.lease.value, t);
  }

  /** Call i, if it resolves a job of u, does so for a turn whose page is not harsh. */
  ghost predicate Gentle(cfg: Config, canonicalize: string -> Url, tr: Trace, u: Url, i: nat)
    requires i < |tr.calls|
  {
    IsResolution(tr.calls[i]) && tr.calls[i].job.url == u ==>
      exists turn: Turn, now: int :: turn.lease.Some? && Agrees(cfg, turn) && !Harsh(turn.outcome)
        && tr.calls[i] == AsCall(turn.lease.value, Settlement(canonicalize, turn), now)
  }

  lemma GentleStep(cfg: Config, canonicalize: string -> Url, tr: Trace, u: Url, i: nat)
    requires IsTrace(cfg, tr) && i < |tr.calls| && Gentle(cfg, canonicalize, tr, u, i)
    ensures !Buries(tr.states[i], tr.states[i + 1], u) && !StrikesGrow(tr.states[i], tr.states[i + 1], u)
  {
    var s, c, t := tr.states[i], tr.calls[i], tr.states[i + 1];
    TraceExact(cfg, tr, i);
    if Buries(s, t, u) || StrikesGrow(s, t, u) {
      OnlyPenalties(cfg, s, c, t, u);
      var turn: Turn, now: int :| turn.lease.Some? && Agrees(cfg, turn) && !Harsh(turn.outcome)
        && c == AsCall(turn.lease.value, Settlement(canonicalize, turn), now);
      OnlyHarshPages(cfg, canonicalize, s, turn, now, t, u);
      assert false;
    }
  }

  /** However many cancelled, rate-limited, invalid or good pages a URL gives, it is never buried for them and never
      gains a strike. */
  lemma {:induction false} GentlePagesNeverBury(cfg: Config, canonicalize: string -> Url, tr: Trace, u: Url, n: nat)
    requires IsTrace(cfg, tr) && n <= |tr.calls| && u !in tr.states[0].dead
    requires forall i: nat :: i < n ==> Gentle(cfg, canonicalize, tr, u, i)
    ensures u !in tr.states[n].dead && Get(tr.states[n].strikes, u) <= Get(tr.states[0].strikes, u)
  {
    if n > 0 {
      GentlePagesNeverBury(cfg, canonicalize, tr, u, n - 1);
      assert Gentle(cfg, canonicalize, tr, u, n - 1);
      GentleStep(cfg, canonicalize, tr, u, n - 1);
    }
  }
}
