/**
 * The pre-minted credential pool as a state machine. One step is what runs between two awaits:
 * requests, mint answers, the refill loop and the clock interleave freely.
 */
module PoolProtocol {

  /** URLs are numbered in the order the provider signs them; it never signs the same one twice. */
  type Url = nat

  datatype Entry = Entry(url: Url, mintedAt: int)

  datatype Config = Config(poolSize: nat, uploadTtl: int, expiryMargin: int) {
    /** How long an entry may be used from the pool, in milliseconds. */
    function Lifetime(): int {
      (uploadTtl - expiryMargin) * 1000
    }
  }

  const MAX_REFILL_ROUNDS := 5

  /** Where the single refill chain stands. `Closing`: the loop has returned, its promise is not cleared yet. */
  datatype Refill =
    | Idle
    | Minting(round: nat, want: nat)
    | Stamped(round: nat, entries: seq<Entry>)
    | Closing

  /** One call for `count` credentials. */
  datatype Request =
    | Waiting(count: nat, held: seq<Entry>)
    | Minted(count: nat, held: seq<Entry>, extra: seq<Entry>)
    | Answered(count: nat, urls: seq<Url>)
    | Rejected

  datatype State = State(
    pool: seq<Entry>,
    refill: Refill,
    requests: seq<Request>,
    now: int,
    nextUrl: nat,
    dropped: seq<Url>)

  function Urls(entries: seq<Entry>): (urls: seq<Url>)
    ensures |urls| == |entries|
  {
    seq(|entries|, i requires 0 <= i < |entries| => entries[i].url)
  }

  // ---------------------------------------------------------------------------------------
  // Steps
  // ---------------------------------------------------------------------------------------

  /** The first index from `i` on whose entry has not expired. */
  function ExpiredHead(pool: seq<Entry>, cutoff: int, i: nat := 0): (n: nat)
    requires i <= |pool|
    ensures i <= n <= |pool|
    ensures forall k :: i <= k < n ==> pool[k].mintedAt <= cutoff
    ensures n < |pool| ==> pool[n].mintedAt > cutoff
    decreases |pool| - i
  {
    if i < |pool| && pool[i].mintedAt <= cutoff then ExpiredHead(pool, cutoff, i + 1) else i
  }

  function Pruned(c: Config, s: State): State {
    var n := ExpiredHead(s.pool, s.now - c.Lifetime());
    s.(pool := s.pool[n..], dropped := s.dropped + Urls(s.pool[..n]))
  }

  /** The head of the refill loop, up to its next await. */
  function RefillRound(c: Config, s: State, round: nat): State {
    var p := Pruned(c, s);
    if round >= MAX_REFILL_ROUNDS || c.poolSize <= |p.pool| then p.(refill := Closing)
    else p.(refill := Minting(round, c.poolSize - |p.pool|))
  }

  /** Starts a refill unless one is in flight or the pool is full. */
  function Scheduled(c: Config, s: State): State {
    if s.refill != Idle then s else
    var p := Pruned(c, s);
    if c.poolSize <= |p.pool| then p else RefillRound(c, p, 0)
  }

  function Taken(c: Config, s: State, count: nat): seq<Entry> {
    var pool := Pruned(c, s).pool;
    pool[..if count < |pool| then count else |pool|]
  }

  function Began(c: Config, s: State, count: nat): State {
    var p := Pruned(c, s);
    var taken := Taken(c, s, count);
    var rest := p.(pool := p.pool[|taken|..]);
    if |taken| < count then rest.(requests := rest.requests + [Waiting(count, taken)])
    else Scheduled(c, rest).(requests := rest.requests + [Answered(count, Urls(taken))])
  }

  /** Freshly signed entries, stamped at non-decreasing times not before `now`. */
  predicate Stamps(times: seq<int>, now: int) {
    && (forall i :: 0 <= i < |times| ==> now <= times[i])
    && (forall i, j :: 0 <= i < j < |times| ==> times[i] <= times[j])
  }

  function Fresh(first: Url, times: seq<int>): (entries: seq<Entry>)
    ensures |entries| == |times|
  {
    seq(|times|, i requires 0 <= i < |times| => Entry(first + i, times[i]))
  }

  function Clock(now: int, times: seq<int>): int {
    if times == [] then now else times[|times| - 1]
  }

  /** What can happen next; an event that does not fit the state changes nothing. */
  datatype Event =
    | Tick(elapsed: nat)
    | Begin(count: nat)
    | RefillMinted(times: seq<int>)
    | RefillMintFailed
    | RefillPushed
    | RefillClosed
    | RequestMinted(id: nat, times: seq<int>)
    | RequestMintFailed(id: nat)
    | RequestResumed(id: nat)

  function Step(c: Config, s: State, e: Event): State {
    match e
    case Tick(elapsed) => s.(now := s.now + elapsed)
    case Begin(count) => Began(c, s, count)
    case RefillMinted(times) =>
      if s.refill.Minting? && |times| == s.refill.want && Stamps(times, s.now) then
        s.(refill := Stamped(s.refill.round, Fresh(s.nextUrl, times)), now := Clock(s.now, times), nextUrl := s.nextUrl + |times|)
      else s
    case RefillMintFailed => if s.refill.Minting? then s.(refill := Closing) else s
    case RefillPushed =>
      if s.refill.Stamped? then RefillRound(c, s.(pool := s.pool + s.refill.entries, refill := Idle), s.refill.round + 1) else s
    case RefillClosed => if s.refill.Closing? then s.(refill := Idle) else s
    case RequestMinted(id, times) =>
      if id < |s.requests| && s.requests[id].Waiting? && |times| == s.requests[id].count - |s.requests[id].held| && Stamps(times, s.now) then
        var r := s.requests[id];
        s.(requests := s.requests[id := Minted(r.count, r.held, Fresh(s.nextUrl, times))], now := Clock(s.now, times), nextUrl := s.nextUrl + |times|)
      else s
    case RequestMintFailed(id) =>
      if id < |s.requests| && s.requests[id].Waiting? then
        s.(requests := s.requests[id := Rejected], dropped := s.dropped + Urls(s.requests[id].held))
      else s
    case RequestResumed(id) =>
      if id < |s.requests| && s.requests[id].Minted? then
        var r := s.requests[id];
        Scheduled(c, s).(requests := s.requests[id := Answered(r.count, Urls(r.held + r.extra))])
      else s
  }

  /** At construction the pool is empty and a refill is scheduled. */
  function Initial(c: Config, now: int): State {
    Scheduled(c, State([], Idle, [], now, 0, []))
  }

  function Run(c: Config, now: int, events: seq<Event>): State {
    if events == [] then Initial(c, now) else Step(c, Run(c, now, events[..|events| - 1]), events[|events| - 1])
  }

  // ---------------------------------------------------------------------------------------
  // Order, size and rounds
  // ---------------------------------------------------------------------------------------

  ghost predicate Sorted(entries: seq<Entry>) {
    forall i, j :: 0 <= i < j < |entries| ==> entries[i].mintedAt <= entries[j].mintedAt
  }

  ghost predicate NotAfter(entries: seq<Entry>, now: int) {
    forall i :: 0 <= i < |entries| ==> entries[i].mintedAt <= now
  }

  function Incoming(r: Refill): seq<Entry> {
    if r.Stamped? then r.entries else []
  }

  function Reserved(r: Refill): nat {
    match r
    case Minting(_, want) => want
    case Stamped(_, entries) => |entries|
    case _ => 0
  }

  ghost predicate RequestFits(r: Request) {
    match r
    case Waiting(count, held) => |held| < count
    case Minted(count, held, extra) => |held| + |extra| == count
    case Answered(count, urls) => |urls| == count
    case Rejected => true
  }

  /** Size, order and round budget. */
  ghost predicate PoolShape(c: Config, pool: seq<Entry>, refill: Refill, now: int) {
    && |pool| + Reserved(refill) <= c.poolSize
    && Sorted(pool + Incoming(refill)) && NotAfter(pool + Incoming(refill), now)
    && (refill.Minting? ==> refill.round < MAX_REFILL_ROUNDS && refill.want > 0)
    && (refill.Stamped? ==> refill.round < MAX_REFILL_ROUNDS && refill.entries != [])
  }

  ghost predicate Shape(c: Config, s: State) {
    && PoolShape(c, s.pool, s.refill, s.now)
    && forall i :: 0 <= i < |s.requests| ==> RequestFits(s.requests[i])
  }

  lemma TailKeepsPoolShape(c: Config, pool: seq<Entry>, refill: Refill, now: int, n: nat)
    requires PoolShape(c, pool, refill, now) && n <= |pool|
    ensures PoolShape(c, pool[n..], refill, now)
    ensures Sorted(pool) && NotAfter(pool, now)
  {
    assert pool[n..] + Incoming(refill) == (pool + Incoming(refill))[n..];
    assert forall i :: 0 <= i < |pool| ==> pool[i] == (pool + Incoming(refill))[i];
  }

  lemma PruneKeepsShape(c: Config, s: State)
    requires Shape(c, s)
    ensures Shape(c, Pruned(c, s))
  {
    TailKeepsPoolShape(c, s.pool, s.refill, s.now, ExpiredHead(s.pool, s.now - c.Lifetime()));
  }

  /** On a pool in mint order, dropping the expired head removes every expired entry. */
  lemma PruneRemovesEveryExpired(c: Config, s: State)
    requires Shape(c, s)
    ensures forall i :: 0 <= i < |Pruned(c, s).pool| ==> s.now - Pruned(c, s).pool[i].mintedAt < c.Lifetime()
  {
    TailKeepsPoolShape(c, s.pool, s.refill, s.now, ExpiredHead(s.pool, s.now - c.Lifetime()));
  }

  lemma RefillRoundKeepsShape(c: Config, s: State, round: nat)
    requires Shape(c, s) && s.refill == Idle
    ensures Shape(c, RefillRound(c, s, round)) && RefillRound(c, s, round).requests == s.requests
  {
    PruneKeepsShape(c, s);
  }

  lemma ScheduleKeepsShape(c: Config, s: State)
    requires Shape(c, s)
    ensures Shape(c, Scheduled(c, s)) && Scheduled(c, s).requests == s.requests
  {
    if s.refill == Idle {
      PruneKeepsShape(c, s);
      RefillRoundKeepsShape(c, Pruned(c, s), 0);
    }
  }

  lemma TakeKeepsShape(c: Config, s: State, n: nat)
    requires Shape(c, s) && n <= |s.pool|
    ensures Shape(c, s.(pool := s.pool[n..]))
  {
    TailKeepsPoolShape(c, s.pool, s.refill, s.now, n);
  }

  lemma RequestKeepsShape(c: Config, s: State, r: Request)
    requires Shape(c, s) && RequestFits(r)
    ensures Shape(c, s.(requests := s.requests + [r]))
  {
  }

  lemma BeginKeepsShape(c: Config, s: State, count: nat)
    requires Shape(c, s)
    ensures Shape(c, Began(c, s, count))
  {
    var p := Pruned(c, s);
    var taken := Taken(c, s, count);
    var rest := p.(pool := p.pool[|taken|..]);
    PruneKeepsShape(c, s);
    TakeKeepsShape(c, p, |taken|);
    if |taken| < count {
      RequestKeepsShape(c, rest, Waiting(count, taken));
    } else {
      ScheduleKeepsShape(c, rest);
      RequestKeepsShape(c, Scheduled(c, rest), Answered(count, Urls(taken)));
    }
  }

  lemma StampKeepsPoolShape(c: Config, pool: seq<Entry>, round: nat, now: int, first: Url, times: seq<int>)
    requires PoolShape(c, pool, Minting(round, |times|), now) && Stamps(times, now)
    ensures PoolShape(c, pool, Stamped(round, Fresh(first, times)), Clock(now, times))
  {
    var all := pool + Fresh(first, times);
    TailKeepsPoolShape(c, pool, Minting(round, |times|), now, 0);
    forall i | 0 <= i < |all| ensures all[i].mintedAt <= Clock(now, times) {
    }
    forall i, j | 0 <= i < j < |all| ensures all[i].mintedAt <= all[j].mintedAt {
    }
  }

  lemma StepKeepsPoolShape(c: Config, s: State, e: Event)
    requires Shape(c, s) && !e.Begin?
    ensures PoolShape(c, Step(c, s, e).pool, Step(c, s, e).refill, Step(c, s, e).now)
  {
    TailKeepsPoolShape(c, s.pool, s.refill, s.now, 0);
    assert s.pool + [] == s.pool;
    match e
    case RefillMinted(times) =>
      if s.refill.Minting? && |times| == s.refill.want && Stamps(times, s.now) {
        StampKeepsPoolShape(c, s.pool, s.refill.round, s.now, s.nextUrl, times);
      }
    case RefillPushed =>
      if s.refill.Stamped? {
        var pushed := s.(pool := s.pool + s.refill.entries, refill := Idle);
        assert pushed.pool + [] == pushed.pool;
        RefillRoundKeepsShape(c, pushed, s.refill.round + 1);
      }
    case RequestResumed(id) => ScheduleKeepsShape(c, s);
    case _ =>
  }

  lemma StepKeepsShape(c: Config, s: State, e: Event)
    requires Shape(c, s)
    ensures Shape(c, Step(c, s, e))
  {
    match e
    case Begin(count) => BeginKeepsShape(c, s, count);
    case RefillPushed =>
      StepKeepsPoolShape(c, s, e);
      assert Step(c, s, e).requests == s.requests;
    case RequestResumed(id) =>
      StepKeepsPoolShape(c, s, e);
      ScheduleKeepsShape(c, s);
    case _ => StepKeepsPoolShape(c, s, e);
  }

  // ---------------------------------------------------------------------------------------
  // Conservation: every signed URL is in exactly one place
  // ---------------------------------------------------------------------------------------

  function RequestUrls(r: Request): seq<Url> {
    match r
    case Waiting(_, held) => Urls(held)
    case Minted(_, held, extra) => Urls(held) + Urls(extra)
    case Answered(_, urls) => urls
    case Rejected => []
  }

  /** How often a URL occurs in a list. */
  function Copies(urls: seq<Url>, u: Url): nat {
    if urls == [] then 0
    else Copies(urls[..|urls| - 1], u) + if urls[|urls| - 1] == u then 1 else 0
  }

  function RequestCopies(requests: seq<Request>, u: Url): nat {
    if requests == [] then 0
    else RequestCopies(requests[..|requests| - 1], u) + Copies(RequestUrls(requests[|requests| - 1]), u)
  }

  /** How often a URL occurs in the pool, on its way into it, with a request, and among the dropped. */
  function Places(s: State, u: Url): nat {
    Copies(Urls(s.pool), u) + Copies(Urls(Incoming(s.refill)), u) + RequestCopies(s.requests, u) + Copies(s.dropped, u)
  }

  ghost predicate Conserved(s: State) {
    forall u: Url :: Places(s, u) == if u < s.nextUrl then 1 else 0
  }

  /** Going from `s` to `t`, only URLs signed on the way change how often they occur: from never to once. */
  ghost predicate AddsOnlySigned(s: State, t: State, u: Url) {
    && s.nextUrl <= t.nextUrl
    && Places(t, u) == Places(s, u) + if s.nextUrl <= u < t.nextUrl then 1 else 0
  }

  lemma {:induction false} CopiesConcat(a: seq<Url>, b: seq<Url>, u: Url)
    ensures Copies(a + b, u) == Copies(a, u) + Copies(b, u)
  {
    if b == [] {
      assert a + b == a;
    } else {
      assert (a + b)[..|a + b| - 1] == a + b[..|b| - 1];
      CopiesConcat(a, b[..|b| - 1], u);
    }
  }

  lemma CopiesAdd(a: seq<Entry>, b: seq<Entry>, u: Url)
    ensures Copies(Urls(a + b), u) == Copies(Urls(a), u) + Copies(Urls(b), u)
  {
    assert Urls(a + b) == Urls(a) + Urls(b);
    CopiesConcat(Urls(a), Urls(b), u);
  }

  lemma CopiesSplit(entries: seq<Entry>, n: nat, u: Url)
    requires n <= |entries|
    ensures Copies(Urls(entries), u) == Copies(Urls(entries[..n]), u) + Copies(Urls(entries[n..]), u)
  {
    CopiesAdd(entries[..n], entries[n..], u);
    assert entries[..n] + entries[n..] == entries;
  }

  lemma {:induction false} RequestsConcat(a: seq<Request>, b: seq<Request>, u: Url)
    ensures RequestCopies(a + b, u) == RequestCopies(a, u) + RequestCopies(b, u)
  {
    if b == [] {
      assert a + b == a;
    } else {
      assert (a + b)[..|a + b| - 1] == a + b[..|b| - 1];
      RequestsConcat(a, b[..|b| - 1], u);
    }
  }

  lemma RequestAppended(requests: seq<Request>, r: Request, u: Url)
    ensures RequestCopies(requests + [r], u) == RequestCopies(requests, u) + Copies(RequestUrls(r), u)
  {
    assert (requests + [r])[..|requests|] == requests;
  }

  lemma RequestBetween(a: seq<Request>, r: Request, b: seq<Request>, u: Url)
    ensures RequestCopies(a + [r] + b, u) == RequestCopies(a, u) + Copies(RequestUrls(r), u) + RequestCopies(b, u)
  {
    RequestAppended(a, r, u);
    RequestsConcat(a + [r], b, u);
  }

  lemma SplitAt(requests: seq<Request>, id: nat)
    requires id < |requests|
    ensures requests[..id] + [requests[id]] + requests[id + 1..] == requests
  {
  }

  /** The copies of a URL with one request and with all the others. */
  lemma RequestSingledOut(requests: seq<Request>, id: nat, u: Url)
    requires id < |requests|
    ensures RequestCopies(requests, u) ==
            RequestCopies(requests[..id], u) + Copies(RequestUrls(requests[id]), u) + RequestCopies(requests[id + 1..], u)
  {
    SplitAt(requests, id);
    RequestBetween(requests[..id], requests[id], requests[id + 1..], u);
  }

  lemma RequestReplaced(requests: seq<Request>, id: nat, r: Request, u: Url)
    requires id < |requests|
    ensures RequestCopies(requests[id := r], u) + Copies(RequestUrls(requests[id]), u) ==
            RequestCopies(requests, u) + Copies(RequestUrls(r), u)
  {
    var replaced := requests[id := r];
    RequestSingledOut(requests, id, u);
    RequestSingledOut(replaced, id, u);
    assert replaced[..id] == requests[..id] && replaced[id + 1..] == requests[id + 1..];
  }

  lemma PruneConserves(c: Config, s: State, u: Url)
    ensures Places(Pruned(c, s), u) == Places(s, u)
  {
    var n := ExpiredHead(s.pool, s.now - c.Lifetime());
    CopiesSplit(s.pool, n, u);
    CopiesConcat(s.dropped, Urls(s.pool[..n]), u);
  }

  lemma EmptyHandedConserves(s: State, refill: Refill, u: Url)
    requires !s.refill.Stamped? && !refill.Stamped?
    ensures Places(s.(refill := refill), u) == Places(s, u)
  {
  }

  lemma RefillRoundConserves(c: Config, s: State, round: nat, u: Url)
    requires s.refill == Idle
    ensures Places(RefillRound(c, s, round), u) == Places(s, u)
    ensures RefillRound(c, s, round).requests == s.requests && RefillRound(c, s, round).nextUrl == s.nextUrl
  {
    PruneConserves(c, s, u);
    EmptyHandedConserves(Pruned(c, s), RefillRound(c, s, round).refill, u);
  }

  lemma ScheduleConserves(c: Config, s: State, u: Url)
    ensures Places(Scheduled(c, s), u) == Places(s, u)
    ensures Scheduled(c, s).requests == s.requests && Scheduled(c, s).nextUrl == s.nextUrl
  {
    if s.refill == Idle {
      var p := Pruned(c, s);
      PruneConserves(c, s, u);
      if |p.pool| < c.poolSize {
        RefillRoundConserves(c, p, 0, u);
      }
    }
  }

  lemma BeginConserves(c: Config, s: State, count: nat, u: Url)
    ensures AddsOnlySigned(s, Began(c, s, count), u)
  {
    var p := Pruned(c, s);
    var taken := Taken(c, s, count);
    var rest := p.(pool := p.pool[|taken|..]);
    PruneConserves(c, s, u);
    CopiesSplit(p.pool, |taken|, u);
    if |taken| < count {
      RequestAppended(rest.requests, Waiting(count, taken), u);
    } else {
      ScheduleConserves(c, rest, u);
      RequestAppended(rest.requests, Answered(count, Urls(taken)), u);
    }
  }

  /** Signing `times` more URLs puts each new one in one place and leaves the others alone. */
  lemma {:induction false} FreshCopies(first: Url, times: seq<int>, u: Url)
    ensures Copies(Urls(Fresh(first, times)), u) == if first <= u < first + |times| then 1 else 0
  {
    if times != [] {
      var n := |times| - 1;
      FreshCopies(first, times[..n], u);
      assert Urls(Fresh(first, times))[..n] == Urls(Fresh(first, times[..n]));
    }
  }

  /** Replacing one request's state moves only the URLs of that request. */
  lemma RequestMoves(s: State, id: nat, r: Request, u: Url)
    requires id < |s.requests|
    ensures Places(s.(requests := s.requests[id := r]), u) ==
            Places(s, u) + Copies(RequestUrls(r), u) - Copies(RequestUrls(s.requests[id]), u)
  {
    RequestReplaced(s.requests, id, r, u);
  }

  /** A waiting request that receives the entries just signed for it. */
  lemma FilledRequestCounts(s: State, id: nat, entries: seq<Entry>, u: Url)
    requires id < |s.requests| && s.requests[id].Waiting?
    ensures
      var r := s.requests[id];
      Places(s.(requests := s.requests[id := Minted(r.count, r.held, entries)]), u) == Places(s, u) + Copies(Urls(entries), u)
  {
    var r := s.requests[id];
    RequestMoves(s, id, Minted(r.count, r.held, entries), u);
    CopiesConcat(Urls(r.held), Urls(entries), u);
  }

  lemma RequestMintConserves(c: Config, s: State, id: nat, times: seq<int>, u: Url)
    ensures AddsOnlySigned(s, Step(c, s, RequestMinted(id, times)), u)
  {
    if id < |s.requests| && s.requests[id].Waiting? {
      FilledRequestCounts(s, id, Fresh(s.nextUrl, times), u);
      FreshCopies(s.nextUrl, times, u);
    }
  }

  lemma DroppingCounts(s: State, urls: seq<Url>, u: Url)
    ensures Places(s.(dropped := s.dropped + urls), u) == Places(s, u) + Copies(urls, u)
  {
    CopiesConcat(s.dropped, urls, u);
  }

  lemma RequestFailureConserves(c: Config, s: State, id: nat, u: Url)
    ensures AddsOnlySigned(s, Step(c, s, RequestMintFailed(id)), u)
  {
    if id < |s.requests| && s.requests[id].Waiting? {
      RequestMoves(s, id, Rejected, u);
      DroppingCounts(s.(requests := s.requests[id := Rejected]), Urls(s.requests[id].held), u);
    }
  }

  lemma AnswerConserves(s: State, id: nat, u: Url)
    requires id < |s.requests| && s.requests[id].Minted?
    ensures
      var r := s.requests[id];
      Places(s.(requests := s.requests[id := Answered(r.count, Urls(r.held + r.extra))]), u) == Places(s, u)
  {
    var r := s.requests[id];
    RequestMoves(s, id, Answered(r.count, Urls(r.held + r.extra)), u);
    CopiesAdd(r.held, r.extra, u);
    CopiesConcat(Urls(r.held), Urls(r.extra), u);
  }

  lemma ResumeConserves(c: Config, s: State, id: nat, u: Url)
    ensures AddsOnlySigned(s, Step(c, s, RequestResumed(id)), u)
  {
    if id < |s.requests| && s.requests[id].Minted? {
      ScheduleConserves(c, s, u);
      AnswerConserves(Scheduled(c, s), id, u);
    }
  }

  lemma RefillMintConserves(c: Config, s: State, times: seq<int>, u: Url)
    ensures AddsOnlySigned(s, Step(c, s, RefillMinted(times)), u)
  {
    FreshCopies(s.nextUrl, times, u);
  }

  lemma PushConserves(c: Config, s: State, u: Url)
    ensures AddsOnlySigned(s, Step(c, s, RefillPushed), u)
  {
    if s.refill.Stamped? {
      var pushed := s.(pool := s.pool + s.refill.entries, refill := Idle);
      CopiesAdd(s.pool, s.refill.entries, u);
      assert Places(pushed, u) == Places(s, u);
      RefillRoundConserves(c, pushed, s.refill.round + 1, u);
    }
  }

  lemma StepAddsOnlySigned(c: Config, s: State, e: Event, u: Url)
    ensures AddsOnlySigned(s, Step(c, s, e), u)
  {
    match e
    case Begin(count) => BeginConserves(c, s, count, u);
    case RequestMinted(id, times) => RequestMintConserves(c, s, id, times, u);
    case RequestMintFailed(id) => RequestFailureConserves(c, s, id, u);
    case RequestResumed(id) => ResumeConserves(c, s, id, u);
    case RefillMinted(times) => RefillMintConserves(c, s, times, u);
    case RefillPushed => PushConserves(c, s, u);
    case _ =>
  }

  lemma StepConserves(c: Config, s: State, e: Event)
    requires Conserved(s)
    ensures Conserved(Step(c, s, e))
  {
    forall u: Url ensures Places(Step(c, s, e), u) == if u < Step(c, s, e).nextUrl then 1 else 0 {
      StepAddsOnlySigned(c, s, e, u);
    }
  }

  // ---------------------------------------------------------------------------------------
  // Every run
  // ---------------------------------------------------------------------------------------

  /** Every interleaving keeps the shape and conserves the URLs. */
  lemma {:induction false} EveryRunIsSafe(c: Config, now: int, events: seq<Event>)
    ensures Shape(c, Run(c, now, events)) && Conserved(Run(c, now, events))
  {
    if events == [] {
      var s := State([], Idle, [], now, 0, []);
      ScheduleKeepsShape(c, s);
      forall u: Url ensures Places(Initial(c, now), u) == 0 {
        ScheduleConserves(c, s, u);
      }
    } else {
      var before := events[..|events| - 1];
      EveryRunIsSafe(c, now, before);
      StepKeepsShape(c, Run(c, now, before), events[|events| - 1]);
      StepConserves(c, Run(c, now, before), events[|events| - 1]);
    }
  }

  /** Some run ends in this state. */
  ghost predicate Reached(c: Config, s: State) {
    exists now, events :: s == Run(c, now, events)
  }

  lemma ReachedIsSafe(c: Config, s: State)
    requires Reached(c, s)
    ensures Shape(c, s) && Conserved(s)
  {
    var now, events :| s == Run(c, now, events);
    EveryRunIsSafe(c, now, events);
  }

  /** In every reachable state the pool is within its size and in mint order, and every answer has the size asked for. */
  lemma PoolIsBoundedAndSorted(c: Config, s: State)
    requires Reached(c, s)
    ensures |s.pool| <= c.poolSize && Sorted(s.pool)
    ensures forall id :: 0 <= id < |s.requests| && s.requests[id].Answered? ==> |s.requests[id].urls| == s.requests[id].count
    ensures s.refill.Minting? ==> s.refill.round < MAX_REFILL_ROUNDS
  {
    ReachedIsSafe(c, s);
    TailKeepsPoolShape(c, s.pool, s.refill, s.now, 0);
    forall id | 0 <= id < |s.requests| && s.requests[id].Answered?
      ensures |s.requests[id].urls| == s.requests[id].count
    {
      assert RequestFits(s.requests[id]);
    }
  }

  /** Whatever a request takes from the pool, in any reachable state, stays valid with the provider for more than the margin. */
  lemma TakenEntriesAreYoung(c: Config, s: State, count: nat)
    requires Reached(c, s)
    ensures forall i :: 0 <= i < |Taken(c, s, count)| ==>
              s.now + c.expiryMargin * 1000 < Taken(c, s, count)[i].mintedAt + c.uploadTtl * 1000
  {
    ReachedIsSafe(c, s);
    PruneRemovesEveryExpired(c, s);
  }

  /** The entries that have not expired, in mint order. */
  function Usable(c: Config, pool: seq<Entry>, now: int): seq<Entry> {
    if pool == [] then [] else
    var last := pool[|pool| - 1];
    Usable(c, pool[..|pool| - 1], now) + if now + c.expiryMargin * 1000 < last.mintedAt + c.uploadTtl * 1000 then [last] else []
  }

  /** Dropping the expired head of a pool in mint order keeps exactly the usable entries. */
  lemma {:induction false} HeadPruningIsFiltering(c: Config, pool: seq<Entry>, now: int, n: nat)
    requires Sorted(pool) && n <= |pool|
    requires forall k :: 0 <= k < n ==> pool[k].mintedAt <= now - c.Lifetime()
    requires n < |pool| ==> pool[n].mintedAt > now - c.Lifetime()
    ensures pool[n..] == Usable(c, pool, now)
  {
    if pool != [] {
      var before := pool[..|pool| - 1];
      if n == |pool| {
        HeadPruningIsFiltering(c, before, now, n - 1);
      } else {
        HeadPruningIsFiltering(c, before, now, n);
        assert pool[n..] == before[n..] + [pool[|pool| - 1]];
      }
    }
  }

  lemma PruningKeepsUsable(c: Config, s: State)
    requires Shape(c, s)
    ensures Pruned(c, s).pool == Usable(c, s.pool, s.now)
    ensures forall i :: 0 <= i < |Pruned(c, s).pool| ==> s.now - Pruned(c, s).pool[i].mintedAt < c.Lifetime()
  {
    TailKeepsPoolShape(c, s.pool, s.refill, s.now, 0);
    HeadPruningIsFiltering(c, s.pool, s.now, ExpiredHead(s.pool, s.now - c.Lifetime()));
    PruneRemovesEveryExpired(c, s);
  }

  /** Usable entries are not pruned again when a refill is scheduled at the same time. */
  lemma ScheduleKeepsUsable(c: Config, s: State)
    requires forall i :: 0 <= i < |s.pool| ==> s.now - s.pool[i].mintedAt < c.Lifetime()
    ensures Scheduled(c, s).pool == s.pool
  {
    assert s.pool[0..] == s.pool;
  }

  lemma BeginTakesFrom(c: Config, s: State, count: nat, usable: seq<Entry>)
    requires Pruned(c, s).pool == usable
    requires forall i :: 0 <= i < |usable| ==> s.now - usable[i].mintedAt < c.Lifetime()
    ensures
      var t := Began(c, s, count);
      && (count <= |usable| ==> t.requests == s.requests + [Answered(count, Urls(usable[..count]))] && t.pool == usable[count..])
      && (count > |usable| ==> t.requests == s.requests + [Waiting(count, usable)] && t.pool == [] && t.refill == s.refill)
  {
    var p := Pruned(c, s);
    if count <= |usable| {
      var rest := p.(pool := usable[count..]);
      assert forall i :: 0 <= i < |rest.pool| ==> rest.pool[i] == usable[count + i];
      ScheduleKeepsUsable(c, rest);
    } else {
      assert usable[..|usable|] == usable && usable[|usable|..] == [];
    }
  }

  /**
   * The pool serves requests first, oldest entries first: in any reachable state a request is answered
   * at once exactly when the usable entries suffice; otherwise it holds them all, waits for the rest and
   * leaves the refill alone.
   */
  lemma RequestTakesOldest(c: Config, s: State, count: nat)
    requires Reached(c, s)
    ensures
      var usable := Usable(c, s.pool, s.now);
      var t := Step(c, s, Begin(count));
      && (count <= |usable| ==> t.requests == s.requests + [Answered(count, Urls(usable[..count]))] && t.pool == usable[count..])
      && (count > |usable| ==> t.requests == s.requests + [Waiting(count, usable)] && t.pool == [] && t.refill == s.refill)
  {
    ReachedIsSafe(c, s);
    PruningKeepsUsable(c, s);
    BeginTakesFrom(c, s, count, Usable(c, s.pool, s.now));
  }

  lemma TwoRequestsAreCounted(requests: seq<Request>, i: nat, j: nat, u: Url)
    requires i < j < |requests|
    ensures Copies(RequestUrls(requests[i]), u) + Copies(RequestUrls(requests[j]), u) <= RequestCopies(requests, u)
  {
    RequestSingledOut(requests, j, u);
    RequestSingledOut(requests[..j], i, u);
    assert requests[..j][i] == requests[i];
  }

  lemma IndexIsACopy(urls: seq<Url>, k: nat)
    requires k < |urls|
    ensures Copies(urls, urls[k]) >= 1
  {
    CopiesConcat(urls[..k + 1], urls[k + 1..], urls[k]);
    assert urls[..k + 1] + urls[k + 1..] == urls;
  }

  lemma TwoIndicesAreTwoCopies(urls: seq<Url>, k: nat, l: nat)
    requires k < l < |urls| && urls[k] == urls[l]
    ensures Copies(urls, urls[k]) >= 2
  {
    IndexIsACopy(urls[..l], k);
    IndexIsACopy(urls[l..], 0);
    CopiesConcat(urls[..l], urls[l..], urls[k]);
    assert urls[..l] + urls[l..] == urls;
  }

  /** The k-th credential of the i-th request's answer is `u`. */
  predicate HandedOut(s: State, i: nat, k: nat, u: Url) {
    i < |s.requests| && s.requests[i].Answered? && k < |s.requests[i].urls| && s.requests[i].urls[k] == u
  }

  lemma HandedOutOnce(s: State, i: nat, k: nat, j: nat, l: nat, u: Url)
    requires Conserved(s) && HandedOut(s, i, k, u) && HandedOut(s, j, l, u) && i <= j
    ensures i == j && k == l
  {
    assert Places(s, u) <= 1;
    IndexIsACopy(s.requests[i].urls, k);
    if i == j {
      RequestSingledOut(s.requests, i, u);
      if k != l {
        TwoIndicesAreTwoCopies(s.requests[i].urls, if k < l then k else l, if k < l then l else k);
      }
    } else {
      TwoRequestsAreCounted(s.requests, i, j, u);
      IndexIsACopy(s.requests[j].urls, l);
    }
  }

  /** No URL is handed out twice: not by two requests, and not twice by one. */
  lemma NoUrlIsHandedOutTwice(c: Config, s: State, i: nat, k: nat, j: nat, l: nat, u: Url)
    requires Reached(c, s) && HandedOut(s, i, k, u) && HandedOut(s, j, l, u)
    ensures i == j && k == l
  {
    ReachedIsSafe(c, s);
    if i <= j {
      HandedOutOnce(s, i, k, j, l, u);
    } else {
      HandedOutOnce(s, j, l, i, k, u);
    }
  }

  /**
   * After a push the refill chain either asks for exactly what is missing, or stops because the
   * pool is full or its rounds are spent; so one chain mints at most five times.
   */
  lemma PushCatchesUp(c: Config, s: State)
    requires Shape(c, s) && s.refill.Stamped?
    ensures
      var t := Step(c, s, RefillPushed);
      || t.refill == Minting(s.refill.round + 1, c.poolSize - |t.pool|)
      || (t.refill == Closing && (|t.pool| == c.poolSize || s.refill.round + 1 == MAX_REFILL_ROUNDS))
  {
    StepKeepsShape(c, s, RefillPushed);
  }

  /** How the refill chain can go on: start at round 0, mint, push into the next round, end, be cleared. */
  predicate FollowsFrom(s: Refill, t: Refill) {
    t == s ||
    match s
    case Idle => t.Closing? || (t.Minting? && t.round == 0)
    case Minting(round, _) => t.Closing? || (t.Stamped? && t.round == round)
    case Stamped(round, _) => t.Closing? || (t.Minting? && t.round == round + 1)
    case Closing => t.Idle?
  }

  lemma ScheduleStartsAtZero(c: Config, s: State)
    ensures FollowsFrom(s.refill, Scheduled(c, s).refill)
    ensures s.refill != Idle ==> Scheduled(c, s).refill == s.refill
  {
  }

  /** Every step moves the refill chain along: no round is skipped or repeated. */
  lemma RoundsAdvanceByOne(c: Config, s: State, e: Event)
    ensures FollowsFrom(s.refill, Step(c, s, e).refill)
  {
    match e
    case Begin(count) =>
      var p := Pruned(c, s);
      ScheduleStartsAtZero(c, p.(pool := p.pool[|Taken(c, s, count)|..]));
    case RequestResumed(id) => ScheduleStartsAtZero(c, s);
    case _ =>
  }

  // ---------------------------------------------------------------------------------------
  // One chain at a time, five rounds at most
  // ---------------------------------------------------------------------------------------

  /** Single flight: while a chain is in flight only its own progress changes it, whatever requests do. */
  lemma ChainIsNotReplaced(c: Config, s: State, e: Event)
    requires s.refill != Idle && (e.Tick? || e.Begin? || e.RequestMinted? || e.RequestMintFailed? || e.RequestResumed?)
    ensures Step(c, s, e).refill == s.refill
  {
  }

  /** With no chain in flight, scheduling starts one that asks for exactly what is missing. */
  lemma ScheduleTopsUp(c: Config, s: State)
    requires s.refill == Idle
    ensures
      var t := Scheduled(c, s);
      t.refill == if |t.pool| < c.poolSize then Minting(0, c.poolSize - |t.pool|) else Idle
  {
    var n := ExpiredHead(s.pool, s.now - c.Lifetime());
    assert s.pool[n..][0..] == s.pool[n..];
  }

  /** A request is answered: at once from the pool, or after its own mint. */
  predicate Answers(c: Config, s: State, e: Event) {
    || (e.Begin? && |Taken(c, s, e.count)| == e.count)
    || (e.RequestResumed? && e.id < |s.requests| && s.requests[e.id].Minted?)
  }

  /** An answered request that finds no chain in flight leaves a full pool, or a new chain that asks for exactly what is missing. */
  lemma AnswerRestarts(c: Config, s: State, e: Event)
    requires Answers(c, s, e) && s.refill == Idle
    ensures
      var t := Step(c, s, e);
      t.refill == if |t.pool| < c.poolSize then Minting(0, c.poolSize - |t.pool|) else Idle
  {
    if e.Begin? {
      var p := Pruned(c, s);
      ScheduleTopsUp(c, p.(pool := p.pool[|Taken(c, s, e.count)|..]));
    } else {
      ScheduleTopsUp(c, s);
    }
  }

  /** Whenever a request is answered, the pool is full or a chain is minting for it, unless a chain was just closing. */
  lemma AnswerTopsUp(c: Config, s: State, e: Event)
    requires Answers(c, s, e)
    ensures
      var t := Step(c, s, e);
      t.refill.Minting? || t.refill.Stamped? || c.poolSize <= |t.pool| || s.refill.Closing?
  {
    if s.refill == Idle {
      AnswerRestarts(c, s, e);
    } else {
      ChainIsNotReplaced(c, s, e);
    }
  }

  /** A chain that was closing is out of the way once it is cleared: the next answer starts another. */
  lemma ClosedChainRestarts(c: Config, s: State, e: Event)
    requires s.refill.Closing?
    ensures
      var cleared := Step(c, s, RefillClosed);
      && cleared == s.(refill := Idle)
      && (Answers(c, cleared, e) ==>
            var t := Step(c, cleared, e);
            t.refill == if |t.pool| < c.poolSize then Minting(0, c.poolSize - |t.pool|) else Idle)
  {
    var cleared := Step(c, s, RefillClosed);
    if Answers(c, cleared, e) {
      AnswerRestarts(c, cleared, e);
    }
  }

  // ---------------------------------------------------------------------------------------
  // Every chain ends
  // ---------------------------------------------------------------------------------------

  /** A step of the refill chain itself: its mint is answered or fails, it pushes, or its promise is cleared. */
  predicate Own(s: State, e: Event) {
    match e
    case RefillMinted(times) => s.refill.Minting? && |times| == s.refill.want && Stamps(times, s.now)
    case RefillMintFailed => s.refill.Minting?
    case RefillPushed => s.refill.Stamped?
    case RefillClosed => s.refill.Closing?
    case _ => false
  }

  /** The steps of its own that a chain has left at most. */
  function StepsLeft(refill: Refill): int {
    match refill
    case Idle => 0
    case Minting(round, _) => 2 * (MAX_REFILL_ROUNDS - round) + 1
    case Stamped(round, _) => 2 * (MAX_REFILL_ROUNDS - round)
    case Closing => 1
  }

  /** Its own steps bring a chain closer to its end, and nothing else moves it. */
  lemma OwnStepAdvances(c: Config, s: State, e: Event)
    requires Shape(c, s) && s.refill != Idle
    ensures
      var t := Step(c, s, e);
      && 0 <= StepsLeft(t.refill) <= StepsLeft(s.refill) <= 11
      && (Own(s, e) ==> StepsLeft(t.refill) < StepsLeft(s.refill))
      && (!Own(s, e) ==> t.refill == s.refill)
  {
    StepKeepsShape(c, s, e);
    if !Own(s, e) && (e.Tick? || e.Begin? || e.RequestMinted? || e.RequestMintFailed? || e.RequestResumed?) {
      ChainIsNotReplaced(c, s, e);
    }
  }

  /** The state after further events. */
  function Later(c: Config, s: State, events: seq<Event>): State
    decreases |events|
  {
    if events == [] then s else Later(c, Step(c, s, events[0]), events[1..])
  }

  /** The chain's own steps among the events. */
  function OwnSteps(c: Config, s: State, events: seq<Event>): nat
    decreases |events|
  {
    if events == [] then 0
    else (if Own(s, events[0]) then 1 else 0) + OwnSteps(c, Step(c, s, events[0]), events[1..])
  }

  /**
   * No chain stays in flight: whatever else happens in between, after at most eleven steps of its own
   * (five mints, five pushes and the clearing of its promise) there was a moment at which none was.
   */
  lemma {:induction false} EveryChainEnds(c: Config, s: State, events: seq<Event>)
    requires Shape(c, s) && forall k :: 0 <= k <= |events| ==> Later(c, s, events[..k]).refill != Idle
    ensures OwnSteps(c, s, events) < StepsLeft(s.refill) <= 11
    decreases |events|
  {
    assert events[..0] == [];
    if events == [] {
      OwnStepAdvances(c, s, Tick(0));
    } else {
      var t := Step(c, s, events[0]);
      OwnStepAdvances(c, s, events[0]);
      StepKeepsShape(c, s, events[0]);
      forall k | 0 <= k <= |events[1..]| ensures Later(c, t, events[1..][..k]).refill != Idle {
        assert events[..k + 1][0] == events[0] && events[..k + 1][1..] == events[1..][..k];
      }
      EveryChainEnds(c, t, events[1..]);
    }
  }

  /** A mint round that a step from `s` to `t` begins. */
  function Begins(s: Refill, t: Refill): nat {
    if t.Minting? && t != s then 1 else 0
  }

  /** The mint rounds begun since no refill was in flight. */
  function RoundsBegun(c: Config, now: int, events: seq<Event>): nat {
    var refill := Run(c, now, events).refill;
    if refill == Idle then 0
    else if events == [] then Begins(Idle, refill)
    else
      var before := events[..|events| - 1];
      RoundsBegun(c, now, before) + Begins(Run(c, now, before).refill, refill)
  }

  /** The count of begun rounds fits where the chain stands. */
  predicate RoundsFit(refill: Refill, begun: nat) {
    begun <= MAX_REFILL_ROUNDS && (refill.Minting? || refill.Stamped? ==> begun == refill.round + 1)
  }

  lemma RoundsStillFit(s: Refill, t: Refill, begun: nat)
    requires FollowsFrom(s, t) && RoundsFit(s, begun) && (s == Idle ==> begun == 0)
    requires t.Minting? ==> t.round < MAX_REFILL_ROUNDS
    ensures RoundsFit(t, begun + Begins(s, t))
  {
  }

  /** Under every interleaving a refill chain begins at most five mint rounds, `round + 1` of them so far. */
  lemma {:induction false} AtMostFiveRounds(c: Config, now: int, events: seq<Event>)
    ensures RoundsFit(Run(c, now, events).refill, RoundsBegun(c, now, events))
  {
    if events != [] {
      var before := events[..|events| - 1];
      AtMostFiveRounds(c, now, before);
      EveryRunIsSafe(c, now, events);
      RoundsAdvanceByOne(c, Run(c, now, before), events[|events| - 1]);
      RoundsStillFit(Run(c, now, before).refill, Run(c, now, events).refill, RoundsBegun(c, now, before));
    }
  }
}
