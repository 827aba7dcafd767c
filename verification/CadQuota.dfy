/** Per-wallet CAD admission: one request in flight, and a daily counter that survives restarts. */
module CadQuota {
  /** Wallets are canonical (lower case). */
  type Wallet = string

  const DAY_MS := 86400000
  const PRUNE_AFTER_DAYS := 2
  const CAD_LOCK_TTL_MARGIN_MS := 30000
  const DEFAULT_LOCK_TTL_MS := LockTtlFor(3, 120000)

  /** A configured number; NaN and infinities are not finite. */
  datatype Bound = Finite(value: int) | NotFinite {
    predicate Usable() {
      Finite? && value >= 1
    }
  }

  function UtcDay(ms: int): int {
    ms / DAY_MS
  }

  function NextUtcMidnightSeconds(ms: int): int {
    (UtcDay(ms) + 1) * (DAY_MS / 1000)
  }

  /** An unusable limit refuses everything. */
  function DailyLimitOf(limit: Bound): (r: int)
    ensures r >= 0 && (limit.Usable() ==> r == limit.value) && (!limit.Usable() ==> r == 0)
  {
    if limit.Usable() then limit.value else 0
  }

  function LockTtlFor(attempts: int, providerTimeoutMs: int): int {
    attempts * providerTimeoutMs + CAD_LOCK_TTL_MARGIN_MS
  }

  /** An unusable TTL falls back to the derived one. */
  function LockTtlOf(ttl: Bound): (r: int)
    ensures r >= 1 && (ttl.Usable() ==> r == ttl.value)
  {
    if ttl.Usable() then ttl.value else DEFAULT_LOCK_TTL_MS
  }

  /** The operator's override when usable, else the TTL derived from the request's limits. */
  function CadLockTtlMs(attempts: int, providerTimeoutMs: int, override: Bound): int {
    if override.Usable() then override.value else LockTtlFor(attempts, providerTimeoutMs)
  }

  /** The lock outlives the longest request exactly when no shorter override is configured. */
  lemma TtlCoversRequestIff(attempts: nat, providerTimeoutMs: nat, override: Bound)
    ensures LockTtlOf(Finite(CadLockTtlMs(attempts, providerTimeoutMs, override))) >= attempts * providerTimeoutMs <==>
            !override.Usable() || override.value >= attempts * providerTimeoutMs
  {
    assert attempts * providerTimeoutMs >= 0;
  }

  datatype Lock = Lock(token: nat, startedAt: int)
  datatype Count = Count(day: int, used: int)

  datatype State = State(locks: map<Wallet, Lock>, wallets: map<Wallet, Count>, disk: map<Wallet, Count>, nextToken: nat)

  datatype Options = Options(dailyLimit: Bound, lockTtlMs: Bound) {
    function Limit(): int { DailyLimitOf(dailyLimit) }
    function Ttl(): int { LockTtlOf(lockTtlMs) }
  }

  const EMPTY := State(map[], map[], map[], 0)

  datatype Decision =
    | Admitted(token: nat, used: int, limit: int)
    | InProgress(startedAt: int)
    | OverQuota(used: int, limit: int, resetsAt: int)

  // ---------------------------------------------------------------------------------------
  // Operations
  // ---------------------------------------------------------------------------------------

  /** The units a wallet has used on a day, as far as the counters know. */
  function UsedOn(wallets: map<Wallet, Count>, w: Wallet, day: int): int {
    if w in wallets && wallets[w].day == day then wallets[w].used else 0
  }

  function Pruned(wallets: map<Wallet, Count>, now: int): map<Wallet, Count> {
    map w | w in wallets && wallets[w].day >= UtcDay(now - PRUNE_AFTER_DAYS * DAY_MS) :: wallets[w]
  }

  /** Prunes and, when the write succeeds, makes the file equal to memory. */
  function PrunedAndSaved(s: State, now: int, saved: bool): State {
    var wallets := Pruned(s.wallets, now);
    s.(wallets := wallets, disk := if saved then wallets else s.disk)
  }

  predicate Held(s: State, o: Options, now: int, w: Wallet) {
    w in s.locks && now - s.locks[w].startedAt <= o.Ttl()
  }

  function Acquire(s: State, o: Options, now: int, w: Wallet, saved: bool): (State, Decision) {
    if Held(s, o, now, w) then (s, InProgress(s.locks[w].startedAt)) else
    var s1 := s.(locks := s.locks - {w});
    var used := UsedOn(s.wallets, w, UtcDay(now));
    if used >= o.Limit() then (s1, OverQuota(used, o.Limit(), NextUtcMidnightSeconds(now))) else
    var s2 := s1.(locks := s1.locks[w := Lock(s.nextToken, now)], wallets := s.wallets[w := Count(UtcDay(now), used + 1)],
                  nextToken := s.nextToken + 1);
    (PrunedAndSaved(s2, now, saved), Admitted(s.nextToken, used + 1, o.Limit()))
  }

  function Release(s: State, w: Wallet, token: nat): State {
    if w in s.locks && s.locks[w].token == token then s.(locks := s.locks - {w}) else s
  }

  predicate RefundIsEffective(s: State, now: int, w: Wallet) {
    w in s.wallets && s.wallets[w].day == UtcDay(now) && s.wallets[w].used > 0
  }

  function Refund(s: State, now: int, w: Wallet, saved: bool): State {
    if !RefundIsEffective(s, now, w) then s
    else PrunedAndSaved(s.(wallets := s.wallets[w := Count(UtcDay(now), s.wallets[w].used - 1)]), now, saved)
  }

  /** What a new process counts from: the file, or nothing when it cannot be read. */
  function FromDisk(s: State, readable: bool): map<Wallet, Count> {
    if readable then s.disk else map[]
  }

  function Restarted(s: State, readable: bool): State {
    s.(locks := map[], wallets := FromDisk(s, readable))
  }

  function RemainingHeader(s: State, o: Options, now: int, w: Wallet): int {
    var left := o.Limit() - UsedOn(s.wallets, w, UtcDay(now));
    if left < 0 then 0 else left
  }

  // ---------------------------------------------------------------------------------------
  // Runs
  // ---------------------------------------------------------------------------------------

  /**
   * `saved` says whether the write that follows a change of the counters succeeds, `readable` whether
   * the file can be read after a restart.
   */
  datatype Op =
    | DoAcquire(w: Wallet, saved: bool)
    | DoRelease(w: Wallet, token: nat)
    | DoRefund(w: Wallet, saved: bool)
    | Restart(readable: bool)

  datatype Call = Call(now: int, op: Op)

  function Step(s: State, o: Options, call: Call): State {
    match call.op
    case DoAcquire(w, saved) => Acquire(s, o, call.now, w, saved).0
    case DoRelease(w, token) => Release(s, w, token)
    case DoRefund(w, saved) => Refund(s, call.now, w, saved)
    case Restart(readable) => Restarted(s, readable)
  }

  function Run(o: Options, h: seq<Call>): State {
    if h == [] then EMPTY else Step(Run(o, h[..|h| - 1]), o, h[|h| - 1])
  }

  /** The clock never runs backwards. */
  ghost predicate Monotone(h: seq<Call>) {
    forall i, j :: 0 <= i < j < |h| ==> h[i].now <= h[j].now
  }

  predicate IsAdmission(s: State, o: Options, call: Call, w: Wallet) {
    call.op.DoAcquire? && call.op.w == w && Acquire(s, o, call.now, w, call.op.saved).1.Admitted?
  }

  predicate IsRefund(s: State, call: Call, w: Wallet) {
    call.op.DoRefund? && call.op.w == w && RefundIsEffective(s, call.now, w)
  }

  /** Admissions minus effective refunds of one wallet on one day. */
  function NetAdmissions(o: Options, h: seq<Call>, w: Wallet, day: int): int {
    if h == [] then 0 else
    var before := h[..|h| - 1];
    var call := h[|h| - 1];
    NetAdmissions(o, before, w, day) + Delta(o, Run(o, before), call, w, day)
  }

  ghost predicate CountsWithin(o: Options, wallets: map<Wallet, Count>, today: int) {
    forall w :: w in wallets ==> 0 <= wallets[w].used <= o.Limit() && wallets[w].day <= today
  }

  lemma DaysAreMonotone(a: int, b: int)
    requires a <= b
    ensures UtcDay(a) <= UtcDay(b) && UtcDay(a - PRUNE_AFTER_DAYS * DAY_MS) <= UtcDay(a)
  {
  }

  /** Pruning never touches the current day or a later one. */
  lemma PruningKeepsToday(o: Options, wallets: map<Wallet, Count>, now: int, w: Wallet, day: int)
    requires UtcDay(now) <= day
    ensures UsedOn(Pruned(wallets, now), w, day) == UsedOn(wallets, w, day)
    ensures CountsWithin(o, wallets, UtcDay(now)) ==> CountsWithin(o, Pruned(wallets, now), UtcDay(now))
  {
    DaysAreMonotone(now, now);
  }

  /** What one call adds to a wallet's net admissions of a day. */
  function Delta(o: Options, s: State, call: Call, w: Wallet, day: int): int {
    if UtcDay(call.now) != day then 0
    else if IsAdmission(s, o, call, w) then 1
    else if IsRefund(s, call, w) then -1
    else 0
  }

  ghost predicate AllWithin(o: Options, s: State, today: int) {
    CountsWithin(o, s.wallets, today) && CountsWithin(o, s.disk, today)
  }

  lemma AcquireCounts(o: Options, s: State, call: Call, w: Wallet, day: int)
    requires call.op.DoAcquire? && AllWithin(o, s, UtcDay(call.now)) && UtcDay(call.now) <= day
    ensures AllWithin(o, Step(s, o, call), UtcDay(call.now))
    ensures UsedOn(Step(s, o, call).wallets, w, day) == UsedOn(s.wallets, w, day) + Delta(o, s, call, w, day)
  {
    var today := UtcDay(call.now);
    var charged := s.wallets[call.op.w := Count(today, UsedOn(s.wallets, call.op.w, today) + 1)];
    PruningKeepsToday(o, charged, call.now, w, day);
    if Acquire(s, o, call.now, call.op.w, call.op.saved).1.Admitted? {
      assert CountsWithin(o, charged, today);
      assert Step(s, o, call).wallets == Pruned(charged, call.now);
    }
  }

  lemma RefundCounts(o: Options, s: State, call: Call, w: Wallet, day: int)
    requires call.op.DoRefund? && AllWithin(o, s, UtcDay(call.now)) && UtcDay(call.now) <= day
    ensures AllWithin(o, Step(s, o, call), UtcDay(call.now))
    ensures UsedOn(Step(s, o, call).wallets, w, day) == UsedOn(s.wallets, w, day) + Delta(o, s, call, w, day)
  {
    if RefundIsEffective(s, call.now, call.op.w) {
      var refunded := s.wallets[call.op.w := Count(UtcDay(call.now), s.wallets[call.op.w].used - 1)];
      PruningKeepsToday(o, refunded, call.now, w, day);
      assert CountsWithin(o, refunded, UtcDay(call.now));
    }
  }

  /** One call keeps the counters within the limit and moves one day's count of one wallet as recorded; a restart counts from the file. */
  lemma StepCounts(o: Options, s: State, call: Call, w: Wallet, day: int)
    requires AllWithin(o, s, UtcDay(call.now)) && UtcDay(call.now) <= day
    ensures AllWithin(o, Step(s, o, call), UtcDay(call.now))
    ensures UsedOn(Step(s, o, call).wallets, w, day) ==
            UsedOn(if call.op.Restart? then FromDisk(s, call.op.readable) else s.wallets, w, day) + Delta(o, s, call, w, day)
  {
    match call.op
    case DoAcquire(_, _) => AcquireCounts(o, s, call, w, day);
    case DoRefund(_, _) => RefundCounts(o, s, call, w, day);
    case DoRelease(_, _) =>
    case Restart(_) =>
  }

  lemma {:induction false} RunIsWithin(o: Options, h: seq<Call>, today: int)
    requires Monotone(h) && (h != [] ==> UtcDay(h[|h| - 1].now) <= today)
    ensures AllWithin(o, Run(o, h), today)
  {
    if h != [] {
      var before, call := h[..|h| - 1], h[|h| - 1];
      if before != [] {
        DaysAreMonotone(before[|before| - 1].now, call.now);
      }
      RunIsWithin(o, before, UtcDay(call.now));
      StepCounts(o, Run(o, before), call, "", UtcDay(call.now));
    }
  }

  /** At every restart, what the new process reads agrees with what memory had counted for the wallet's day. */
  ghost predicate FaithfulRestarts(o: Options, h: seq<Call>, w: Wallet, day: int) {
    forall i :: 0 <= i < |h| && h[i].op.Restart? ==> RestartKeepsCount(o, h, i, w, day)
  }

  ghost predicate RestartKeepsCount(o: Options, h: seq<Call>, i: nat, w: Wallet, day: int)
    requires i < |h| && h[i].op.Restart?
  {
    var s := Run(o, h[..i]);
    UsedOn(FromDisk(s, h[i].op.readable), w, day) == UsedOn(s.wallets, w, day)
  }

  ghost predicate CountIsNet(o: Options, h: seq<Call>, k: nat, w: Wallet, day: int)
    requires k <= |h|
  {
    UsedOn(Run(o, h[..k]).wallets, w, day) == NetAdmissions(o, h[..k], w, day)
  }

  /** The counter is admissions minus effective refunds after every call. */
  ghost predicate CountsExactly(o: Options, h: seq<Call>, w: Wallet, day: int) {
    forall k :: 0 <= k <= |h| ==> CountIsNet(o, h, k, w, day)
  }

  lemma CountsOfPrefix(o: Options, h: seq<Call>, w: Wallet, day: int)
    requires h != []
    ensures CountsExactly(o, h, w, day) <==> CountsExactly(o, h[..|h| - 1], w, day) && CountIsNet(o, h, |h|, w, day)
  {
    var before := h[..|h| - 1];
    forall k | 0 <= k < |h| ensures CountIsNet(o, h, k, w, day) <==> CountIsNet(o, before, k, w, day) {
      assert h[..k] == before[..k];
    }
  }

  lemma RestartsOfPrefix(o: Options, h: seq<Call>, w: Wallet, day: int)
    requires h != []
    ensures FaithfulRestarts(o, h, w, day) <==>
            FaithfulRestarts(o, h[..|h| - 1], w, day) && (h[|h| - 1].op.Restart? ==> RestartKeepsCount(o, h, |h| - 1, w, day))
  {
    var before := h[..|h| - 1];
    forall i | 0 <= i < |before| && h[i].op.Restart?
      ensures RestartKeepsCount(o, h, i, w, day) <==> RestartKeepsCount(o, before, i, w, day)
    {
      assert h[..i] == before[..i];
    }
  }

  /** Given an exact count before it, the last call keeps the count exact unless it is a restart that loses units. */
  lemma LastCallCountsIff(o: Options, h: seq<Call>, w: Wallet, day: int)
    requires Monotone(h) && h != [] && UtcDay(h[|h| - 1].now) <= day
    requires CountIsNet(o, h, |h| - 1, w, day)
    ensures CountIsNet(o, h, |h|, w, day) <==> (h[|h| - 1].op.Restart? ==> RestartKeepsCount(o, h, |h| - 1, w, day))
  {
    var before, call := h[..|h| - 1], h[|h| - 1];
    if before != [] {
      DaysAreMonotone(before[|before| - 1].now, call.now);
    }
    RunIsWithin(o, before, UtcDay(call.now));
    StepCounts(o, Run(o, before), call, w, day);
    assert h[..|h|] == h;
  }

  /**
   * For every wallet, on the current day or any later one: the counter is admissions minus effective
   * refunds after every call, through prunings, other wallets' calls, failed saves and restarts,
   * exactly when no restart reads back another count than memory had.
   */
  lemma {:induction false} CounterIsNetAdmissionsIff(o: Options, h: seq<Call>, w: Wallet, day: int)
    requires Monotone(h) && (h != [] ==> UtcDay(h[|h| - 1].now) <= day)
    ensures CountsExactly(o, h, w, day) <==> FaithfulRestarts(o, h, w, day)
  {
    if h == [] {
      assert h[..0] == [];
    } else {
      var before := h[..|h| - 1];
      if before != [] {
        DaysAreMonotone(before[|before| - 1].now, h[|h| - 1].now);
      }
      CounterIsNetAdmissionsIff(o, before, w, day);
      CountsOfPrefix(o, h, w, day);
      RestartsOfPrefix(o, h, w, day);
      if CountsExactly(o, before, w, day) {
        assert CountIsNet(o, before, |before|, w, day);
        assert before[..|before|] == h[..|h| - 1];
        LastCallCountsIff(o, h, w, day);
      }
    }
  }

  /** The state after a run with faithful restarts. */
  lemma UsedIsNetAdmissions(o: Options, h: seq<Call>, w: Wallet, day: int)
    requires Monotone(h) && (h != [] ==> UtcDay(h[|h| - 1].now) <= day)
    requires FaithfulRestarts(o, h, w, day)
    ensures UsedOn(Run(o, h).wallets, w, day) == NetAdmissions(o, h, w, day)
  {
    CounterIsNetAdmissionsIff(o, h, w, day);
    assert CountIsNet(o, h, |h|, w, day);
    assert h[..|h|] == h;
  }

  /** A charge whose save failed is forgotten by a restart: the counter then lags behind the admissions. */
  lemma RestartForgetsUnsavedUnit(o: Options, now: int, w: Wallet)
    requires o.Limit() > 0
    ensures
      var h := [Call(now, DoAcquire(w, false)), Call(now, Restart(true))];
      NetAdmissions(o, h, w, UtcDay(now)) == 1 && UsedOn(Run(o, h).wallets, w, UtcDay(now)) == 0
  {
    var h := [Call(now, DoAcquire(w, false)), Call(now, Restart(true))];
    assert h[..1] == [h[0]] && h[..1][..0] == [];
    assert IsAdmission(EMPTY, o, h[0], w);
    assert NetAdmissions(o, h[..1], w, UtcDay(now)) == 1;
  }

  /** With faithful restarts a day's net admissions stay within 0 and the limit, and the header reports what is left of it. */
  lemma HeaderReportsWhatIsLeft(o: Options, h: seq<Call>, w: Wallet, now: int)
    requires Monotone(h) && (h != [] ==> h[|h| - 1].now <= now)
    requires FaithfulRestarts(o, h, w, UtcDay(now))
    ensures
      var net := NetAdmissions(o, h, w, UtcDay(now));
      0 <= net <= o.Limit() && RemainingHeader(Run(o, h), o, now, w) == o.Limit() - net
  {
    if h != [] {
      DaysAreMonotone(h[|h| - 1].now, now);
    }
    UsedIsNetAdmissions(o, h, w, UtcDay(now));
    RunIsWithin(o, h, UtcDay(now));
  }

  // ---------------------------------------------------------------------------------------
  // One request in flight
  // ---------------------------------------------------------------------------------------

  ghost predicate NotReleasedBetween(h: seq<Call>, i: nat, j: nat, w: Wallet, token: nat) {
    forall k :: i < k < j && k < |h| ==> h[k].op != DoRelease(w, token) && !h[k].op.Restart?
  }

  /** The lock is still there, or more than the TTL has passed since it was taken. */
  ghost predicate StandsOrExpired(o: Options, s: State, last: int, w: Wallet, lock: Lock) {
    (w in s.locks && s.locks[w] == lock) || last - lock.startedAt > o.Ttl()
  }

  lemma AdmissionTakesLock(o: Options, s: State, call: Call, w: Wallet)
    requires IsAdmission(s, o, call, w)
    ensures StandsOrExpired(o, Step(s, o, call), call.now, w, Lock(s.nextToken, call.now))
  {
  }

  lemma LockSurvivesStep(o: Options, s: State, last: int, call: Call, w: Wallet, lock: Lock)
    requires StandsOrExpired(o, s, last, w, lock) && last <= call.now
    requires call.op != DoRelease(w, lock.token) && !call.op.Restart?
    ensures StandsOrExpired(o, Step(s, o, call), call.now, w, lock)
  {
  }

  /** While its TTL runs, a lock is gone after a call exactly when the call releases its token or is a restart. */
  lemma LiveLockGoesIff(o: Options, s: State, call: Call, w: Wallet)
    requires Held(s, o, call.now, w)
    ensures !(w in Step(s, o, call).locks && Step(s, o, call).locks[w] == s.locks[w]) <==>
            call.op == DoRelease(w, s.locks[w].token) || call.op.Restart?
  {
  }

  /** A restart frees every lock: a second request of the wallet is then admitted at once. */
  lemma RestartAdmitsSecondRequest(o: Options, now: int, w: Wallet)
    requires o.Limit() > 1
    ensures
      var h := [Call(now, DoAcquire(w, true)), Call(now, Restart(true)), Call(now, DoAcquire(w, true))];
      && IsAdmission(Run(o, h[..0]), o, h[0], w) && IsAdmission(Run(o, h[..2]), o, h[2], w)
  {
    var h := [Call(now, DoAcquire(w, true)), Call(now, Restart(true)), Call(now, DoAcquire(w, true))];
    RunUnfolds(o, h, 0);
    RunUnfolds(o, h, 1);
    assert IsAdmission(EMPTY, o, h[0], w);
    DaysAreMonotone(now, now);
    assert UsedOn(Run(o, h[..1]).disk, w, UtcDay(now)) == 1;
  }

  lemma RunUnfolds(o: Options, h: seq<Call>, k: nat)
    requires k < |h|
    ensures Run(o, h[..k + 1]) == Step(Run(o, h[..k]), o, h[k])
  {
    assert h[..k + 1][..k] == h[..k];
  }

  lemma LockSurvivesCall(o: Options, h: seq<Call>, k: nat, w: Wallet, lock: Lock)
    requires 0 < k < |h| && StandsOrExpired(o, Run(o, h[..k]), h[k - 1].now, w, lock) && h[k - 1].now <= h[k].now
    requires h[k].op != DoRelease(w, lock.token) && !h[k].op.Restart?
    ensures StandsOrExpired(o, Run(o, h[..k + 1]), h[k].now, w, lock)
  {
    RunUnfolds(o, h, k);
    LockSurvivesStep(o, Run(o, h[..k]), h[k - 1].now, h[k], w, lock);
  }

  /** Until its token is released a lock stays, or more than the TTL passes. */
  lemma {:induction false} LockStaysOrExpires(o: Options, h: seq<Call>, i: nat, k: nat, w: Wallet, lock: Lock)
    requires Monotone(h) && i < k <= |h| && NotReleasedBetween(h, i, k, w, lock.token)
    requires StandsOrExpired(o, Run(o, h[..i + 1]), h[i].now, w, lock)
    ensures StandsOrExpired(o, Run(o, h[..k]), h[k - 1].now, w, lock)
  {
    if k > i + 1 {
      LockStaysOrExpires(o, h, i, k - 1, w, lock);
      LockSurvivesCall(o, h, k - 1, w, lock);
    }
  }

  /**
   * Two admissions of one wallet, with no release of the first one's token and no restart in
   * between, are more than the TTL apart.
   */
  lemma AdmissionsAreFarApart(o: Options, h: seq<Call>, i: nat, j: nat, w: Wallet)
    requires Monotone(h) && i < j < |h|
    requires IsAdmission(Run(o, h[..i]), o, h[i], w) && IsAdmission(Run(o, h[..j]), o, h[j], w)
    requires NotReleasedBetween(h, i, j, w, Run(o, h[..i]).nextToken)
    ensures h[j].now - h[i].now > o.Ttl()
  {
    RunUnfolds(o, h, i);
    AdmissionTakesLock(o, Run(o, h[..i]), h[i], w);
    LockStaysOrExpires(o, h, i, j, w, Lock(Run(o, h[..i]).nextToken, h[i].now));
  }

  /** With the derived TTL that is more than the longest request can take. */
  lemma DerivedTtlOutlastsRequest(attempts: nat, providerTimeoutMs: nat, limit: Bound, h: seq<Call>, i: nat, j: nat, w: Wallet)
    requires
      var o := Options(limit, Finite(CadLockTtlMs(attempts, providerTimeoutMs, NotFinite)));
      && Monotone(h) && i < j < |h|
      && IsAdmission(Run(o, h[..i]), o, h[i], w) && IsAdmission(Run(o, h[..j]), o, h[j], w)
      && NotReleasedBetween(h, i, j, w, Run(o, h[..i]).nextToken)
    ensures h[j].now - h[i].now > attempts * providerTimeoutMs
  {
    var o := Options(limit, Finite(CadLockTtlMs(attempts, providerTimeoutMs, NotFinite)));
    AdmissionsAreFarApart(o, h, i, j, w);
    TtlCoversRequestIff(attempts, providerTimeoutMs, NotFinite);
  }

  /**
   * What a request for admission decides and changes: admitted exactly when no lock is held and a unit
   * is left; then one unit is charged and the lock taken with a new token. A refusal charges nothing,
   * and other wallets keep their locks and today's counts.
   */
  ghost predicate AdmissionEffect(s: State, s': State, o: Options, now: int, w: Wallet, d: Decision) {
    var today := UtcDay(now);
    && (d.InProgress? <==> Held(s, o, now, w))
    && (d.Admitted? <==> !Held(s, o, now, w) && UsedOn(s.wallets, w, today) < o.Limit())
    && (d.Admitted? ==>
          && UsedOn(s'.wallets, w, today) == UsedOn(s.wallets, w, today) + 1
          && w in s'.locks && s'.locks[w] == Lock(d.token, now) && d.token == s.nextToken < s'.nextToken)
    && (!d.Admitted? ==> s'.wallets == s.wallets && s'.disk == s.disk)
    && (forall v :: v != w ==> (v in s'.locks <==> v in s.locks) && (v in s'.locks ==> s'.locks[v] == s.locks[v]))
    && (forall v :: v != w ==> UsedOn(s'.wallets, v, today) == UsedOn(s.wallets, v, today))
  }

  lemma AcquireHasEffect(s: State, o: Options, now: int, w: Wallet, saved: bool)
    ensures AdmissionEffect(s, Acquire(s, o, now, w, saved).0, o, now, w, Acquire(s, o, now, w, saved).1)
  {
    DaysAreMonotone(now, now);
  }

  // ---------------------------------------------------------------------------------------
  // Refunds across midnight
  // ---------------------------------------------------------------------------------------

  /** What a refund should do for a unit charged on day `charged`: nothing, once that day is over. */
  function PromisedRefund(s: State, now: int, w: Wallet, charged: int, saved: bool): State {
    if charged == UtcDay(now) then Refund(s, now, w, saved) else s
  }

  /**
   * The refund of an admission does what it promises exactly when it comes on the admission's own day
   * or the wallet has used nothing today; otherwise it takes one of today's units.
   */
  lemma RefundKeepsPromiseIff(o: Options, h: seq<Call>, i: nat, w: Wallet, now: int, saved: bool)
    requires Monotone(h) && i < |h| && h[|h| - 1].now <= now && IsAdmission(Run(o, h[..i]), o, h[i], w)
    ensures
      var s := Run(o, h);
      var charged := UtcDay(h[i].now);
      var used := UsedOn(s.wallets, w, UtcDay(now));
      && (Refund(s, now, w, saved) == PromisedRefund(s, now, w, charged, saved) <==> charged == UtcDay(now) || used == 0)
      && UsedOn(Refund(s, now, w, saved).wallets, w, UtcDay(now)) == (if used > 0 then used - 1 else used)
  {
    DaysAreMonotone(h[|h| - 1].now, now);
    RunIsWithin(o, h, UtcDay(now));
  }

  /** A run in which it happens: charged on day 0, charged again on day 1, then the first refund arrives. */
  lemma LateRefundHappens()
    ensures
      var o := Options(Finite(5), Finite(1000));
      var h := [Call(0, DoAcquire("w", true)), Call(DAY_MS, DoAcquire("w", true)), Call(DAY_MS, DoRefund("w", true))];
      NetAdmissions(o, h[..2], "w", 1) == 1 && UsedOn(Run(o, h).wallets, "w", 1) == 0
  {
    var o := Options(Finite(5), Finite(1000));
    var h := [Call(0, DoAcquire("w", true)), Call(DAY_MS, DoAcquire("w", true)), Call(DAY_MS, DoRefund("w", true))];
    assert h[..2][..1] == h[..1] && h[..1][..0] == [] && h[..3] == h && h[..1] == [h[0]];
    var s1 := Step(EMPTY, o, h[0]);
    assert Run(o, h[..1]) == s1;
    assert s1.locks == map["w" := Lock(0, 0)];
    assert s1.wallets == map["w" := Count(0, 1)];
    assert UsedOn(s1.wallets, "w", 1) == 0 && !Held(s1, o, DAY_MS, "w");
    var s2 := Step(s1, o, h[1]);
    assert s2.wallets == map["w" := Count(1, 1)];
    assert Run(o, h[..2]) == s2;
    assert IsAdmission(s1, o, h[1], "w") && NetAdmissions(o, h[..1], "w", 1) == 0;
  }

  // ---------------------------------------------------------------------------------------
  // The code
  // ---------------------------------------------------------------------------------------

  /** The in-memory tables and the state file of one server. */
  class QuotaStore {
    var locks: map<Wallet, Lock>
    var wallets: map<Wallet, Count>
    var disk: map<Wallet, Count>
    var nextToken: nat

    ghost function Current(): State
      reads this
    {
      State(locks, wallets, disk, nextToken)
    }

    constructor ()
      ensures Current() == EMPTY
    {
      locks, wallets, disk, nextToken := map[], map[], map[], 0;
    }

    method PruneAndSave(now: int, saved: bool)
      modifies this`wallets, this`disk
      ensures Current() == PrunedAndSaved(old(Current()), now, saved)
    {
      var cutoff := UtcDay(now - PRUNE_AFTER_DAYS * DAY_MS);
      var keys := wallets.Keys;
      while keys != {}
        invariant keys <= old(wallets).Keys && disk == old(disk)
        invariant wallets == map w | w in old(wallets) && (w in keys || old(wallets)[w].day >= cutoff) :: old(wallets)[w]
        decreases |keys|
      {
        var w :| w in keys;
        keys := keys - {w};
        if wallets[w].day < cutoff {
          wallets := wallets - {w};
        }
      }
      if saved {
        disk := wallets;
      }
    }

    /** The process starts again: locks are gone, the counters come from the file. */
    method ProcessRestart(readable: bool)
      modifies this`locks, this`wallets
      ensures Current() == Restarted(old(Current()), readable)
      ensures locks == map[] && disk == old(disk)
    {
      locks := map[];
      wallets := if readable then disk else map[];
    }

    method AcquireCadSlot(w: Wallet, o: Options, now: int, saved: bool) returns (decision: Decision)
      modifies this
      ensures (Current(), decision) == Acquire(old(Current()), o, now, w, saved)
      ensures AdmissionEffect(old(Current()), Current(), o, now, w, decision)
    {
      ghost var before := Current();
      var limit := DailyLimitOf(o.dailyLimit);
      var ttlMs := LockTtlOf(o.lockTtlMs);
      if w in locks && now - locks[w].startedAt <= ttlMs {
        decision := InProgress(locks[w].startedAt);
      } else {
        // An expired lock is dropped.
        locks := locks - {w};
        var day := UtcDay(now);
        var used := if w in wallets && wallets[w].day == day then wallets[w].used else 0;
        if used >= limit {
          decision := OverQuota(used, limit, NextUtcMidnightSeconds(now));
        } else {
          decision := Admitted(nextToken, used + 1, limit);
          locks := locks[w := Lock(nextToken, now)];
          nextToken := nextToken + 1;
          wallets := wallets[w := Count(day, used + 1)];
          PruneAndSave(now, saved);
        }
      }
      assert (Current(), decision) == Acquire(before, o, now, w, saved);
      AcquireHasEffect(before, o, now, w, saved);
    }

    method ReleaseCadSlot(w: Wallet, token: nat)
      modifies this`locks
      ensures Current() == Release(old(Current()), w, token)
      // Only the token that took the lock frees it; then the wallet is free at any time and under any options.
      ensures w in old(locks) && old(locks)[w].token != token ==> locks == old(locks)
      ensures w in old(locks) && old(locks)[w].token == token ==> forall o, now :: !Held(Current(), o, now, w)
      ensures forall v :: v != w ==> (v in locks <==> v in old(locks)) && (v in locks ==> locks[v] == old(locks)[v])
    {
      if w in locks && locks[w].token == token {
        locks := locks - {w};
      }
    }

    method RefundCadUnit(w: Wallet, now: int, saved: bool)
      modifies this
      ensures Current() == Refund(old(Current()), now, w, saved)
      ensures
        var used := UsedOn(old(wallets), w, UtcDay(now));
        UsedOn(wallets, w, UtcDay(now)) == (if used > 0 then used - 1 else used)
      ensures forall v :: v != w ==> UsedOn(wallets, v, UtcDay(now)) == UsedOn(old(wallets), v, UtcDay(now))
      ensures locks == old(locks)
    {
      if w !in wallets || wallets[w].day != UtcDay(now) || wallets[w].used <= 0 {
        return;
      }
      wallets := wallets[w := Count(wallets[w].day, wallets[w].used - 1)];
      PruneAndSave(now, saved);
    }

    method CadQuotaHeaders(w: Wallet, o: Options, now: int) returns (limit: int, remaining: int, reset: int)
      ensures limit == o.Limit() && remaining == RemainingHeader(Current(), o, now, w)
      ensures UtcDay(reset * 1000) == UtcDay(now) + 1 && UtcDay(reset * 1000 - 1) == UtcDay(now)
    {
      limit := DailyLimitOf(o.dailyLimit);
      var used := if w in wallets && wallets[w].day == UtcDay(now) then wallets[w].used else 0;
      remaining := if limit - used < 0 then 0 else limit - used;
      reset := NextUtcMidnightSeconds(now);
    }
  }
}
