/** The restartable, chunked log indexer with an adaptive chunk size. */
module TokenIndexer {
  import opened Wrappers
  import opened TransferLog
  import opened EditorIndex

  const ZERO_ADDRESS: Address := "0x0000000000000000000000000000000000000000"
  const CHUNK_GROWTH_THRESHOLD := 5
  const EDITOR_ROLE := 2

  /** What eth_getLogs does with one request: answer it, reject its range, or fail. */
  datatype RpcAnswer = Answered | RangeRejected(advertised: Option<int>) | Failed

  datatype EditorEntry = EditorEntry(address: Address, role: int)

  /** What reading a token's editor list from chain and storage yields. */
  datatype EditorAnswer = NoList | NotAList | List(entries: seq<EditorEntry>) | EditorsUnreadable

  /** The outside world: an immutable chain, and an arbitrary answer to every request. */
  datatype World = World(
    chain: Chain,
    getLogs: (nat, int, int) -> RpcAnswer,
    editorList: nat -> EditorAnswer,
    saveSucceeds: nat -> bool)

  /** The `n`-th request: the logs of the blocks `from` to `until`, asked for with chunk size `size`. */
  datatype Request = Request(n: nat, from: int, until: int, size: int) {
    function Answer(world: World): RpcAnswer {
      world.getLogs(n, from, until)
    }

    /** The chunk that starts at `from`, cut at `toBlock`. */
    predicate Fits(toBlock: int) {
      size >= 1 && from <= toBlock && until == if from + size - 1 < toBlock then from + size - 1 else toBlock
    }

    /** It failed, or a chunk of one block was rejected. */
    predicate GivesUp(world: World) {
      Answer(world).Failed? || (Answer(world).RangeRejected? && size == 1)
    }
  }

  /** The requests of one fetch: each but the last was rejected and followed by a smaller one; the last decided. */
  ghost predicate Tried(world: World, from: int, toBlock: int, first: nat, tries: seq<Request>, ok: bool) {
    && tries != []
    && Rejections(world, from, toBlock, first, tries[..|tries| - 1])
    && var last := tries[|tries| - 1];
       && last.n == first + |tries| - 1 && last.from == from && last.Fits(toBlock)
       && (forall r :: r in tries[..|tries| - 1] ==> last.size < r.size)
       && if ok then last.Answer(world).Answered? else last.GivesUp(world)
  }

  ghost predicate Rejections(world: World, from: int, toBlock: int, first: nat, tries: seq<Request>) {
    && (forall i :: 0 <= i < |tries| ==>
          && tries[i].n == first + i && tries[i].from == from && tries[i].Fits(toBlock)
          && tries[i].Answer(world).RangeRejected? && tries[i].size > 1)
    && (forall i, j :: 0 <= i < j < |tries| ==> tries[j].size < tries[i].size)
  }

  lemma TriedEnds(world: World, from: int, toBlock: int, first: nat, tries: seq<Request>, r: Request, ok: bool)
    requires Rejections(world, from, toBlock, first, tries) && r.n == first + |tries| && r.from == from && r.Fits(toBlock)
    requires forall earlier :: earlier in tries ==> r.size < earlier.size
    requires if ok then r.Answer(world).Answered? else r.GivesUp(world)
    ensures Tried(world, from, toBlock, first, tries + [r], ok)
  {
    assert (tries + [r])[..|tries|] == tries;
  }

  lemma RejectionsExtend(world: World, from: int, toBlock: int, first: nat, tries: seq<Request>, r: Request)
    requires Rejections(world, from, toBlock, first, tries) && r.n == first + |tries| && r.from == from && r.Fits(toBlock)
    requires r.Answer(world).RangeRejected? && r.size > 1 && forall earlier :: earlier in tries ==> r.size < earlier.size
    ensures Rejections(world, from, toBlock, first, tries + [r])
  {
  }

  /** No request of a scan gave up, or only the last one did, at which the scan threw. */
  ghost predicate ThrowsAtGivingUp(world: World, toBlock: int, sent: seq<Request>, ok: bool) {
    && (forall r :: r in sent ==> r.Fits(toBlock))
    && (ok ==> forall r :: r in sent ==> !r.GivesUp(world))
    && (!ok ==> sent != [] && sent[|sent| - 1].GivesUp(world) && forall r :: r in sent[..|sent| - 1] ==> !r.GivesUp(world))
  }

  /** A provider that never fails, and never rejects a request for a single block. */
  ghost predicate Patient(world: World) {
    forall n, from, until {:trigger world.getLogs(n, from, until)} ::
      !world.getLogs(n, from, until).Failed? && (from == until ==> !world.getLogs(n, from, until).RangeRejected?)
  }

  lemma PatientNeverGivesUp(world: World, toBlock: int, r: Request)
    requires Patient(world) && r.Fits(toBlock)
    ensures !r.GivesUp(world)
  {
    assert world.getLogs(r.n, r.from, r.until) == r.Answer(world);
  }

  lemma PatientScanEnds(world: World, toBlock: int, sent: seq<Request>, ok: bool)
    requires ThrowsAtGivingUp(world, toBlock, sent, ok)
    ensures Patient(world) ==> ok
  {
    if Patient(world) && sent != [] {
      PatientNeverGivesUp(world, toBlock, sent[|sent| - 1]);
    }
  }

  lemma TriesJoin(world: World, from: int, toBlock: int, first: nat, sent: seq<Request>, tries: seq<Request>, ok: bool)
    requires ThrowsAtGivingUp(world, toBlock, sent, true) && Tried(world, from, toBlock, first, tries, ok)
    ensures ThrowsAtGivingUp(world, toBlock, sent + tries, ok)
  {
    var before := tries[..|tries| - 1];
    assert (sent + tries)[..|sent + tries| - 1] == sent + before;
    forall r | r in before ensures r.Fits(toBlock) && !r.GivesUp(world) {
    }
    assert tries == before + [tries[|tries| - 1]];
  }

  /** The state file: the whole of one earlier state. */
  datatype Saved = Saved(lastScannedBlock: int, ownership: Ownership, editors: Editors)

  /** A rejection's advertised cap counts only when it is at least one block. */
  function ParsedCap(advertised: Option<int>): (cap: Option<int>)
    ensures cap.Some? ==> cap.value >= 1
  {
    if advertised.Some? && advertised.value >= 1 then advertised else None
  }

  /** The number of times a positive number can be halved before it reaches one. */
  function FloorLog2(n: int): nat
    requires n > 0
  {
    if n == 1 then 0 else 1 + FloorLog2(n / 2)
  }

  lemma {:induction false} FloorLog2Monotone(m: int, n: int)
    requires 0 < m <= n
    ensures FloorLog2(m) <= FloorLog2(n)
  {
    if m > 1 {
      FloorLog2Monotone(m / 2, n / 2);
    }
  }

  function Pow2(k: nat): (r: nat)
    ensures r >= 1
  {
    if k == 0 then 1 else 2 * Pow2(k - 1)
  }

  lemma {:induction false} Pow2ExceedsAfterLog(n: int, k: nat)
    requires n > 0 && k > FloorLog2(n)
    ensures Pow2(k) > n
  {
    if n > 1 {
      Pow2ExceedsAfterLog(n / 2, k - 1);
    }
  }

  /** What one scan has counted; `calm` are the chunks since the last rejection, `calmGrowths` the growths among them. */
  datatype Counts = Counts(shrinks: nat, growths: nat, chunks: nat, capNamed: bool, calm: nat, calmGrowths: nat) {
    /** Shrinks against halvings, growths against chunks; and below the ceiling every fifth calm chunk doubles. */
    ghost predicate Fit(firstChunk: nat, ceiling: nat, chunk: int, successes: nat)
      requires firstChunk > 0
    {
      && 1 <= chunk <= ceiling
      && (!capNamed ==> shrinks + FloorLog2(chunk) <= FloorLog2(firstChunk) + growths)
      && 5 * growths + successes <= chunks
      && (chunk == ceiling || (calm == 5 * calmGrowths + successes && successes < 5 && chunk >= Pow2(calmGrowths)))
    }

    function Shrunk(cap: bool): Counts {
      this.(shrinks := shrinks + 1, capNamed := capNamed || cap, calm := 0, calmGrowths := 0)
    }

    function NextChunk(): Counts {
      this.(chunks := chunks + 1, calm := calm + 1)
    }

    function Grown(): Counts {
      this.(growths := growths + 1, calmGrowths := calmGrowths + 1)
    }

    lemma GrowthFits(firstChunk: nat, ceiling: nat, chunk: int)
      requires firstChunk > 0 && chunk < ceiling && Fit(firstChunk, ceiling, chunk, 4)
      ensures NextChunk().Grown().Fit(firstChunk, ceiling, if ceiling < chunk * 2 then ceiling else chunk * 2, 0)
    {
      var next := if ceiling < chunk * 2 then ceiling else chunk * 2;
      assert (chunk * 2) / 2 == chunk;
      FloorLog2Monotone(next, chunk * 2);
      assert Pow2(calmGrowths + 1) == 2 * Pow2(calmGrowths);
    }

    /** Enough chunks without a rejection bring the chunk size back to the ceiling. */
    lemma ChunkRecovers(firstChunk: nat, ceiling: nat, chunk: int, successes: nat)
      requires firstChunk > 0 && Fit(firstChunk, ceiling, chunk, successes)
      ensures calm >= 5 * (FloorLog2(ceiling) + 1) ==> chunk == ceiling
    {
      if chunk != ceiling && calmGrowths > FloorLog2(ceiling) {
        Pow2ExceedsAfterLog(ceiling, calmGrowths);
      }
    }
  }

  const NO_COUNTS := Counts(0, 0, 0, false, 0, 0)

  /** The addresses of the entries with the editor role, in order. */
  function EditorsIn(entries: seq<EditorEntry>): seq<Address> {
    if entries == [] then [] else
    var last := entries[|entries| - 1];
    EditorsIn(entries[..|entries| - 1]) + (if last.address != "" && last.role == EDITOR_ROLE then [last.address] else [])
  }

  /** Exactly the addresses that some entry lists with the editor role. */
  lemma {:induction false} EditorsHaveTheRole(entries: seq<EditorEntry>, a: Address)
    ensures a in EditorsIn(entries) <==> a != "" && EditorEntry(a, 2) in entries
  {
    if entries != [] {
      EditorsHaveTheRole(entries[..|entries| - 1], a);
      assert entries == entries[..|entries| - 1] + [entries[|entries| - 1]];
    }
  }

  /** The index after a token's editor list was read. */
  function Refreshed(e: Editors, t: TokenId, answer: EditorAnswer): Editors {
    match answer
    case EditorsUnreadable => e
    case NoList => Remove(e, t)
    case NotAList => Remove(e, t)
    case List(entries) => Replace(e, t, EditorsIn(entries))
  }

  /** What matters of an indexer's state between two chunks. */
  datatype Snapshot = Snapshot(lastScannedBlock: int, ownership: Ownership, editors: Editors, stateFile: Option<Saved>)

  /** A state file holds an exact replay and an exact pair of editor maps. */
  ghost predicate SavedState(chain: Chain, deployment: int, s: Saved) {
    match s
    case Saved(block, owners, editors) =>
      block >= deployment && owners == Replay(chain, deployment, block) && editors.Inverse()
  }

  /**
   * Either nothing was read, or the ownership is the one-shot replay up to the last scanned block;
   * the editor maps are inverse; and the state file, if any, holds such a state.
   */
  ghost predicate Good(chain: Chain, deployment: int, s: Snapshot) {
    match s
    case Snapshot(block, owners, editors, file) =>
      && block >= deployment
      && (owners == Replay(chain, deployment, block) || (block == deployment && owners == map[]))
      && editors.Inverse()
      && (file.None? || SavedState(chain, deployment, file.value))
  }

  /** The state right after a file was loaded. */
  function Loaded(file: Option<Saved>): Snapshot
    requires file.Some?
  {
    Snapshot(file.value.lastScannedBlock, file.value.ownership, file.value.editors, file)
  }

  lemma FreshIsGood(chain: Chain, deployment: int, s: Snapshot)
    requires Good(chain, deployment, s)
    ensures Good(chain, deployment, Snapshot(deployment, map[], NO_EDITORS, s.stateFile))
  {
  }

  /** What a successful write stores. */
  function SavedForm(s: Snapshot): Saved {
    Saved(s.lastScannedBlock, s.ownership, s.editors)
  }

  /** The state after a write that succeeded or failed. */
  function SavedBy(s: Snapshot, succeeded: bool): Snapshot {
    s.(stateFile := if succeeded then Some(SavedForm(s)) else s.stateFile)
  }

  /** A restart after a write that succeeded goes on from exactly the state that was written. */
  lemma SaveLoadRoundTrip(s: Snapshot)
    ensures Loaded(SavedBy(s, true).stateFile) == SavedBy(s, true)
  {
  }

  /** Saving an exact replay keeps a good state good. */
  lemma SavingKeepsGood(chain: Chain, deployment: int, s: Snapshot, succeeded: bool)
    requires Good(chain, deployment, s) && s.ownership == Replay(chain, deployment, s.lastScannedBlock)
    ensures Good(chain, deployment, SavedBy(s, succeeded))
  {
  }

  /** Reading on from the last scanned block, or from the one after an exact replay, gives the one-shot replay. */
  lemma ResumedScanCatchesUp(chain: Chain, deployment: int, s: Snapshot, from: int, last: int)
    requires Good(chain, deployment, s) && from <= last
    requires from == s.lastScannedBlock ||
             (from == s.lastScannedBlock + 1 && s.ownership == Replay(chain, deployment, s.lastScannedBlock))
    ensures Apply(s.ownership, Logs(chain, from, last)) == Replay(chain, deployment, last)
  {
    if from > s.lastScannedBlock {
      ReplayIsReadyForNext(chain, deployment, s.lastScannedBlock, last);
    } else if s.ownership == Replay(chain, deployment, s.lastScannedBlock) {
      ReplayIsReadyForBoundary(chain, deployment, s.lastScannedBlock, last);
    }
  }

  /** The index after one chunk's burns. */
  function AfterBurns(e: Editors, logs: seq<Log>): Editors {
    if logs == [] then e else
    var before := AfterBurns(e, logs[..|logs| - 1]);
    var event := logs[|logs| - 1].event;
    if event.Transfer? && event.to == ZERO_ADDRESS then Remove(before, event.tokenId) else before
  }

  /** The index after reading the editor lists of `tokens`, the first request being number `n`. */
  function AfterRefreshes(e: Editors, tokens: seq<TokenId>, world: World, n: nat): Editors {
    if tokens == [] then e else
    var i := |tokens| - 1;
    Refreshed(AfterRefreshes(e, tokens[..i], world, n), tokens[i], world.editorList(n + i))
  }

  // What the index holds of one token.

  function EditorsOf(e: Editors, t: TokenId): seq<Address> {
    if t in e.byToken then e.byToken[t] else []
  }

  /** What reading a token's list leaves of it. */
  function AfterReading(held: seq<Address>, answer: EditorAnswer): seq<Address> {
    match answer
    case EditorsUnreadable => held
    case NoList => []
    case NotAList => []
    case List(entries) => EditorsIn(entries)
  }

  predicate IsBurn(event: Event, t: TokenId) {
    event.Transfer? && event.tokenId == t && event.to == ZERO_ADDRESS
  }

  ghost predicate Burned(logs: seq<Log>, t: TokenId) {
    exists log :: log in logs && IsBurn(log.event, t)
  }

  /** The token's editor set changed in one of the logs. */
  ghost predicate Changed(logs: seq<Log>, t: TokenId) {
    exists log :: log in logs && log.event == EditorSetChanged(t)
  }

  lemma RemoveHolds(e: Editors, t: TokenId, u: TokenId)
    ensures EditorsOf(Remove(e, t), u) == if u == t then [] else EditorsOf(e, u)
  {
  }

  lemma RefreshedHolds(e: Editors, t: TokenId, answer: EditorAnswer, u: TokenId)
    ensures EditorsOf(Refreshed(e, t, answer), u) == if u == t then AfterReading(EditorsOf(e, t), answer) else EditorsOf(e, u)
  {
    RemoveHolds(e, t, u);
  }

  /** A chunk's burns forget exactly the burned tokens' editors. */
  lemma {:induction false} AfterBurnsHolds(e: Editors, logs: seq<Log>, t: TokenId)
    ensures EditorsOf(AfterBurns(e, logs), t) == if Burned(logs, t) then [] else EditorsOf(e, t)
  {
    if logs != [] {
      var before, last := logs[..|logs| - 1], logs[|logs| - 1];
      AfterBurnsHolds(e, before, t);
      assert forall log :: log in logs <==> log in before || log == last;
      if last.event.Transfer? {
        RemoveHolds(AfterBurns(e, before), last.event.tokenId, t);
      }
    }
  }

  lemma {:induction false} UnreadTokensStay(e: Editors, tokens: seq<TokenId>, world: World, n: nat, t: TokenId)
    requires t !in tokens
    ensures EditorsOf(AfterRefreshes(e, tokens, world, n), t) == EditorsOf(e, t)
  {
    if tokens != [] {
      var i := |tokens| - 1;
      UnreadTokensStay(e, tokens[..i], world, n, t);
      RefreshedHolds(AfterRefreshes(e, tokens[..i], world, n), tokens[i], world.editorList(n + i), t);
    }
  }

  /** After distinct tokens' lists were read, each holds what its one read answered. */
  lemma {:induction false} ReadTokenHolds(e: Editors, tokens: seq<TokenId>, world: World, n: nat, i: nat)
    requires Distinct(tokens) && i < |tokens|
    ensures EditorsOf(AfterRefreshes(e, tokens, world, n), tokens[i]) == AfterReading(EditorsOf(e, tokens[i]), world.editorList(n + i))
  {
    var last := |tokens| - 1;
    var before, t := tokens[..last], tokens[i];
    var e1 := AfterRefreshes(e, before, world, n);
    RefreshedHolds(e1, tokens[last], world.editorList(n + last), t);
    if i == last {
      assert t !in before;
      UnreadTokensStay(e, before, world, n, t);
    } else {
      assert before[i] == t && t != tokens[last];
      ReadTokenHolds(e, before, world, n, i);
    }
  }

  /** What a token's list is after a chunk's burns and before its read. */
  ghost function Kept(e: Editors, logs: seq<Log>, t: TokenId): seq<Address> {
    if Burned(logs, t) then [] else EditorsOf(e, t)
  }

  /**
   * The editor index after a chunk. `asked` are the tokens whose lists were read, in order, the first
   * request being number `n`: exactly the tokens with an editor event, each once. Such a token holds
   * what its read answered; all others hold what the burns left.
   */
  ghost predicate IndexesChunk(before: Editors, after: Editors, logs: seq<Log>, world: World, n: nat, asked: seq<TokenId>) {
    && Distinct(asked)
    && (forall t :: t in asked <==> Changed(logs, t))
    && (forall i :: 0 <= i < |asked| ==> EditorsOf(after, asked[i]) == AfterReading(Kept(before, logs, asked[i]), world.editorList(n + i)))
    && (forall t :: !Changed(logs, t) ==> EditorsOf(after, t) == Kept(before, logs, t))
  }

  lemma ChunkIsIndexed(before: Editors, logs: seq<Log>, world: World, n: nat, asked: seq<TokenId>)
    requires Distinct(asked) && forall t :: t in asked <==> Changed(logs, t)
    ensures IndexesChunk(before, AfterRefreshes(AfterBurns(before, logs), asked, world, n), logs, world, n, asked)
  {
    var burned := AfterBurns(before, logs);
    var after := AfterRefreshes(burned, asked, world, n);
    forall i | 0 <= i < |asked| ensures EditorsOf(after, asked[i]) == AfterReading(Kept(before, logs, asked[i]), world.editorList(n + i)) {
      AfterBurnsHolds(before, logs, asked[i]);
      ReadTokenHolds(burned, asked, world, n, i);
    }
    forall t | !Changed(logs, t) ensures EditorsOf(after, t) == Kept(before, logs, t) {
      AfterBurnsHolds(before, logs, t);
      UnreadTokensStay(burned, asked, world, n, t);
    }
  }

  lemma {:induction false} BurnsKeepInverse(e: Editors, logs: seq<Log>)
    requires e.Inverse()
    ensures AfterBurns(e, logs).Inverse()
  {
    if logs != [] {
      BurnsKeepInverse(e, logs[..|logs| - 1]);
      var event := logs[|logs| - 1].event;
      if event.Transfer? {
        RemoveKeepsInverse(AfterBurns(e, logs[..|logs| - 1]), event.tokenId);
      }
    }
  }

  /** Whatever the answer was, the index stays a pair of exact inverses. */
  lemma RefreshKeepsInverse(e: Editors, t: TokenId, answer: EditorAnswer)
    requires e.Inverse()
    ensures Refreshed(e, t, answer).Inverse()
  {
    RemoveKeepsInverse(e, t);
    if answer.List? {
      ReplaceKeepsInverse(e, t, EditorsIn(answer.entries));
    }
  }

  lemma {:induction false} RefreshesKeepInverse(e: Editors, tokens: seq<TokenId>, world: World, n: nat)
    requires e.Inverse()
    ensures AfterRefreshes(e, tokens, world, n).Inverse()
  {
    if tokens != [] {
      var i := |tokens| - 1;
      RefreshesKeepInverse(e, tokens[..i], world, n);
      RefreshKeepsInverse(AfterRefreshes(e, tokens[..i], world, n), tokens[i], world.editorList(n + i));
    }
  }

  // ---------------------------------------------------------------------------------------
  // One chunk, as a function of the state before it
  // ---------------------------------------------------------------------------------------

  function AppliedTo(s: Snapshot, logs: seq<Log>, until: int): Snapshot {
    Snapshot(until, Apply(s.ownership, logs), AfterBurns(s.editors, logs), s.stateFile)
  }

  function RefreshedTo(s: Snapshot, tokens: seq<TokenId>, world: World, n: nat): Snapshot {
    s.(editors := AfterRefreshes(s.editors, tokens, world, n))
  }

  /** Logs applied, the lists of `tokens` read from request `n` on, and the state saved if the write succeeds. */
  function ChunkDone(s: Snapshot, logs: seq<Log>, until: int, tokens: seq<TokenId>, world: World, n: nat): Snapshot {
    SavedBy(RefreshedTo(AppliedTo(s, logs, until), tokens, world, n), world.saveSucceeds(n + |tokens|))
  }

  /** A completed chunk keeps a good state good, whatever its reads and its save answer. */
  lemma CompletedChunkIsGood(world: World, deployment: int, s: Snapshot, logs: seq<Log>, until: int, tokens: seq<TokenId>, n: nat)
    requires Good(world.chain, deployment, s) && deployment <= until
    requires Apply(s.ownership, logs) == Replay(world.chain, deployment, until)
    ensures Good(world.chain, deployment, ChunkDone(s, logs, until, tokens, world, n))
  {
    BurnsKeepInverse(s.editors, logs);
    RefreshesKeepInverse(AfterBurns(s.editors, logs), tokens, world, n);
    SavingKeepsGood(world.chain, deployment, RefreshedTo(AppliedTo(s, logs, until), tokens, world, n), world.saveSucceeds(n + |tokens|));
  }

  class Indexer {
    const deploymentBlock: int
    const ceiling: nat
    var ownership: Ownership
    var tokenEditors: map<TokenId, seq<Address>>
    var editorTokens: map<Address, seq<TokenId>>
    var lastScannedBlock: int
    var latestBlock: int
    var logChunkSize: int
    var chunkSuccesses: nat
    var stateFile: Option<Saved>
    /** Counts requests, so that every one may be answered differently. */
    var requests: nat
    // Bookkeeping of one _indexRange call.
    ghost var counts: Counts
    ghost var sent: seq<Request>

    ghost function Index(): Editors
      reads this`tokenEditors, this`editorTokens
    {
      Editors(tokenEditors, editorTokens)
    }

    ghost predicate ChunkInRange()
      reads this`logChunkSize
    {
      1 <= logChunkSize <= ceiling
    }

    ghost function Current(): Snapshot
      reads this`lastScannedBlock, this`ownership, this`tokenEditors, this`editorTokens, this`stateFile
    {
      Snapshot(lastScannedBlock, ownership, Index(), stateFile)
    }

    ghost predicate Valid(chain: Chain)
      reads this`logChunkSize, this`lastScannedBlock, this`ownership, this`tokenEditors, this`editorTokens, this`stateFile
    {
      ChunkInRange() && Good(chain, deploymentBlock, Current())
    }

    constructor (deploymentBlock: int, configuredChunk: nat)
      ensures this.deploymentBlock == deploymentBlock
      ensures ceiling == if configuredChunk == 0 then 100 else configuredChunk
      ensures logChunkSize == ceiling && ownership == map[] && Index() == NO_EDITORS && stateFile == None
      ensures forall chain :: Valid(chain)
    {
      this.deploymentBlock := deploymentBlock;
      ceiling := if configuredChunk == 0 then 100 else configuredChunk;
      logChunkSize := if configuredChunk == 0 then 100 else configuredChunk;
      ownership, tokenEditors, editorTokens := map[], map[], map[];
      lastScannedBlock, latestBlock, chunkSuccesses, requests := deploymentBlock, 0, 0, 0;
      stateFile := None;
      counts, sent := NO_COUNTS, [];
    }

    // -------------------------------------------------------------------------------------
    // The editor index
    // -------------------------------------------------------------------------------------

    method RemoveTokenEditors(t: TokenId)
      modifies this`tokenEditors, this`editorTokens
      ensures Index() == Remove(old(Index()), t)
    {
      if t !in tokenEditors {
        return;
      }
      var editors := tokenEditors[t];
      for i := 0 to |editors|
        invariant tokenEditors == old(tokenEditors)
        invariant editorTokens == Drop(old(editorTokens), editors[..i], t)
      {
        assert editors[..i + 1][..i] == editors[..i];
        var addr := editors[i];
        if addr in editorTokens {
          var filtered := Without(editorTokens[addr], t);
          if |filtered| == 0 {
            editorTokens := editorTokens - {addr};
          } else {
            editorTokens := editorTokens[addr := filtered];
          }
        }
      }
      assert editors[..|editors|] == editors;
      tokenEditors := tokenEditors - {t};
    }

    method RefreshTokenEditors(world: World, t: TokenId)
      modifies this`tokenEditors, this`editorTokens, this`requests
      ensures Index() == Refreshed(old(Index()), t, world.editorList(old(requests))) && requests == old(requests) + 1
    {
      var answer := world.editorList(requests);
      requests := requests + 1;
      match answer {
        case EditorsUnreadable =>
        case NoList => RemoveTokenEditors(t);
        case NotAList => RemoveTokenEditors(t);
        case List(entries) => ReplaceTokenEditors(t, EditorsIn(entries));
      }
    }

    /** Forgets a token's old editors and enters the new ones on both sides. */
    method ReplaceTokenEditors(t: TokenId, editors: seq<Address>)
      modifies this`tokenEditors, this`editorTokens
      ensures Index() == Replace(old(Index()), t, editors)
    {
      RemoveTokenEditors(t);
      if |editors| == 0 {
        return;
      }
      ghost var removed := Index();
      tokenEditors := tokenEditors[t := editors];
      for i := 0 to |editors|
        invariant tokenEditors == removed.byToken[t := editors]
        invariant editorTokens == Add(removed.byEditor, editors[..i], t)
      {
        assert editors[..i + 1][..i] == editors[..i];
        var existing := if editors[i] in editorTokens then editorTokens[editors[i]] else [];
        if t !in existing {
          editorTokens := editorTokens[editors[i] := existing + [t]];
        }
      }
      assert editors[..|editors|] == editors;
    }

    // -------------------------------------------------------------------------------------
    // Chunks
    // -------------------------------------------------------------------------------------

    /** Applies one chunk's logs; returns the highest block seen and the tokens whose editors changed. */
    method ApplyLogs(logs: seq<Log>) returns (maxBlock: int, toRefresh: seq<TokenId>)
      modifies this`ownership, this`tokenEditors, this`editorTokens
      ensures ownership == Apply(old(ownership), logs) && Index() == AfterBurns(old(Index()), logs)
      ensures maxBlock >= lastScannedBlock && (forall log :: log in logs ==> log.blockNumber <= maxBlock)
      ensures maxBlock == lastScannedBlock || exists log :: log in logs && log.blockNumber == maxBlock
      ensures Distinct(toRefresh) && forall t :: t in toRefresh <==> Changed(logs, t)
    {
      maxBlock, toRefresh := lastScannedBlock, [];
      for i := 0 to |logs|
        invariant ownership == Apply(old(ownership), logs[..i]) && Index() == AfterBurns(old(Index()), logs[..i])
        invariant maxBlock >= lastScannedBlock && (forall log :: log in logs[..i] ==> log.blockNumber <= maxBlock)
        invariant maxBlock == lastScannedBlock || exists log :: log in logs[..i] && log.blockNumber == maxBlock
        invariant Distinct(toRefresh) && forall t :: t in toRefresh <==> Changed(logs[..i], t)
      {
        assert logs[..i + 1] == logs[..i] + [logs[i]] && logs[..i + 1][..i] == logs[..i];
        if logs[i].blockNumber > maxBlock {
          maxBlock := logs[i].blockNumber;
        }
        match logs[i].event {
          case Transfer(t, recipient) =>
            ownership := ownership[t := recipient];
            if recipient == ZERO_ADDRESS {
              RemoveTokenEditors(t);
            }
          case EditorSetChanged(t) =>
            if t !in toRefresh {
              toRefresh := toRefresh + [t];
            }
        }
      }
      assert logs[..|logs|] == logs;
    }

    /** The counts of the scan fit the chunk size it has come to. */
    ghost predicate Accounted(initialChunk: nat)
      requires initialChunk > 0
      reads this`logChunkSize, this`chunkSuccesses, this`counts
    {
      counts.Fit(initialChunk, ceiling, logChunkSize, chunkSuccesses)
    }

    /** Snaps to an advertised cap or halves; the chunk always gets smaller. */
    method ShrinkChunk(advertised: Option<int>, ghost initialChunk: nat)
      requires initialChunk > 0 && Accounted(initialChunk) && logChunkSize > 1
      modifies this`logChunkSize, this`chunkSuccesses, this`counts
      ensures Accounted(initialChunk) && logChunkSize < old(logChunkSize) && chunkSuccesses == 0
      ensures counts == old(counts).Shrunk(ParsedCap(advertised).Some?)
      ensures ParsedCap(advertised).None? ==> FloorLog2(logChunkSize) + 1 == FloorLog2(old(logChunkSize))
      ensures ParsedCap(advertised).Some? && ParsedCap(advertised).value < old(logChunkSize) ==> logChunkSize == ParsedCap(advertised).value
      // A cap that is no cap is ignored.
      ensures ParsedCap(advertised).Some? && ParsedCap(advertised).value >= old(logChunkSize) ==> logChunkSize == old(logChunkSize) / 2
    {
      var cap := ParsedCap(advertised);
      var next := if cap.Some? then (if logChunkSize < cap.value then logChunkSize else cap.value) else logChunkSize / 2;
      if next >= logChunkSize {
        next := logChunkSize / 2;
      }
      logChunkSize := if next < 1 then 1 else next;
      chunkSuccesses := 0;
      counts := counts.Shrunk(cap.Some?);
    }

    /** One eth_getLogs request. */
    method FetchLogs(world: World, from: int, until: int) returns (answer: RpcAnswer)
      modifies this`requests, this`sent
      ensures requests == old(requests) + 1 && sent == old(sent) + [Request(old(requests), from, until, logChunkSize)]
      ensures answer == world.getLogs(old(requests), from, until)
    {
      answer := world.getLogs(requests, from, until);
      sent := sent + [Request(requests, from, until, logChunkSize)];
      requests := requests + 1;
    }

    /** Counts a success, and doubles a shrunken chunk back toward the ceiling after enough of them. */
    method GrowChunk(ghost initialChunk: nat)
      requires initialChunk > 0 && Accounted(initialChunk)
      modifies this`logChunkSize, this`chunkSuccesses, this`counts
      ensures Accounted(initialChunk)
      ensures counts == old(counts).NextChunk() || counts == old(counts).NextChunk().Grown()
    {
      ghost var before := counts;
      counts := counts.NextChunk();
      if logChunkSize < ceiling {
        chunkSuccesses := chunkSuccesses + 1;
        if chunkSuccesses >= CHUNK_GROWTH_THRESHOLD {
          before.GrowthFits(initialChunk, ceiling, logChunkSize);
          logChunkSize := if ceiling < logChunkSize * 2 then ceiling else logChunkSize * 2;
          chunkSuccesses := 0;
          counts := counts.Grown();
        }
      }
    }

    /**
     * Fetches one chunk, retrying with a smaller one after every range rejection. `None` means it threw:
     * the last request failed, or was rejected with a chunk of one block, and every earlier one was rejected.
     */
    method FetchAdaptiveChunk(world: World, from: int, toBlock: int, ghost initialChunk: nat)
      returns (fetched: Option<(seq<Log>, int)>)
      requires from <= toBlock && initialChunk > 0 && Accounted(initialChunk)
      modifies this`logChunkSize, this`chunkSuccesses, this`requests, this`counts, this`sent
      ensures Accounted(initialChunk)
      ensures old(sent) <= sent && Tried(world, from, toBlock, old(requests), sent[|old(sent)|..], fetched.Some?)
      ensures requests == old(requests) + |sent| - |old(sent)|
      ensures fetched.Some? ==>
                && from <= fetched.value.1 <= toBlock && fetched.value.1 < from + old(logChunkSize)
                && fetched.value.0 == Logs(world.chain, from, fetched.value.1)
    {
      ghost var tries: seq<Request> := [];
      while true
        invariant Accounted(initialChunk) && logChunkSize <= old(logChunkSize)
        invariant sent == old(sent) + tries && requests == old(requests) + |tries|
        invariant Rejections(world, from, toBlock, old(requests), tries)
        invariant forall r :: r in tries ==> logChunkSize < r.size
        decreases logChunkSize
      {
        var until := if from + logChunkSize - 1 < toBlock then from + logChunkSize - 1 else toBlock;
        ghost var request := Request(requests, from, until, logChunkSize);
        var answer := FetchLogs(world, from, until);
        assert sent == old(sent) + (tries + [request]);
        match answer {
          case Answered =>
            GrowChunk(initialChunk);
            TriedEnds(world, from, toBlock, old(requests), tries, request, true);
            return Some((Logs(world.chain, from, until), until));
          case RangeRejected(advertised) =>
            if logChunkSize <= 1 {
              TriedEnds(world, from, toBlock, old(requests), tries, request, false);
              return None;
            }
            ShrinkChunk(advertised, initialChunk);
            RejectionsExtend(world, from, toBlock, old(requests), tries, request);
            tries := tries + [request];
          case Failed =>
            TriedEnds(world, from, toBlock, old(requests), tries, request, false);
            return None;
        }
      }
    }

    /** Writes the whole state when the write succeeds, and leaves the old file otherwise. */
    method SaveState(world: World)
      modifies this`stateFile, this`requests
      ensures Current() == SavedBy(old(Current()), world.saveSucceeds(old(requests))) && requests == old(requests) + 1
    {
      if world.saveSucceeds(requests) {
        stateFile := Some(Saved(lastScannedBlock, ownership, Editors(tokenEditors, editorTokens)));
      }
      requests := requests + 1;
    }

    method RefreshAll(world: World, tokens: seq<TokenId>)
      modifies this`tokenEditors, this`editorTokens, this`requests
      ensures Current() == RefreshedTo(old(Current()), tokens, world, old(requests))
      ensures requests == old(requests) + |tokens|
    {
      for i := 0 to |tokens|
        invariant requests == old(requests) + i
        invariant Index() == AfterRefreshes(old(Index()), tokens[..i], world, old(requests))
      {
        assert tokens[..i + 1][..i] == tokens[..i];
        RefreshTokenEditors(world, tokens[i]);
      }
      assert tokens[..|tokens|] == tokens;
    }

    /** Applies the logs of the blocks up to `until` and moves the index there. */
    method ApplyChunk(until: int, logs: seq<Log>) returns (toRefresh: seq<TokenId>)
      requires lastScannedBlock <= until && forall log :: log in logs ==> log.blockNumber <= until
      modifies this`ownership, this`tokenEditors, this`editorTokens, this`lastScannedBlock
      ensures Current() == AppliedTo(old(Current()), logs, until)
      ensures Distinct(toRefresh) && forall t :: t in toRefresh <==> Changed(logs, t)
    {
      var maxBlock;
      maxBlock, toRefresh := ApplyLogs(logs);
      lastScannedBlock := if maxBlock < until then until else maxBlock;
    }

    /** The steps of one completed chunk. */
    method RunChunk(world: World, until: int, logs: seq<Log>) returns (toRefresh: seq<TokenId>)
      requires lastScannedBlock <= until && forall log :: log in logs ==> log.blockNumber <= until
      modifies this`ownership, this`tokenEditors, this`editorTokens, this`lastScannedBlock, this`stateFile, this`requests
      ensures Current() == ChunkDone(old(Current()), logs, until, toRefresh, world, old(requests))
      ensures Distinct(toRefresh) && forall t :: t in toRefresh <==> Changed(logs, t)
    {
      toRefresh := ApplyChunk(until, logs);
      RefreshAll(world, toRefresh);
      SaveState(world);
    }

    /**
     * The work of one completed chunk: afterwards the index stands at its last block, every token with
     * an editor event in it holds what its one read answered, and a write that succeeds has stored it all.
     */
    method IndexChunk(world: World, until: int, logs: seq<Log>) returns (ghost asked: seq<TokenId>)
      requires Valid(world.chain) && deploymentBlock <= until && lastScannedBlock <= until
      requires Apply(ownership, logs) == Replay(world.chain, deploymentBlock, until)
      requires forall log :: log in logs ==> log.blockNumber <= until
      modifies this`ownership, this`tokenEditors, this`editorTokens, this`lastScannedBlock, this`stateFile, this`requests
      ensures Valid(world.chain) && lastScannedBlock == until && ownership == Replay(world.chain, deploymentBlock, until)
      ensures IndexesChunk(old(Index()), Index(), logs, world, old(requests), asked)
      ensures stateFile == if world.saveSucceeds(old(requests) + |asked|) then Some(SavedForm(Current())) else old(stateFile)
    {
      var toRefresh := RunChunk(world, until, logs);
      asked := toRefresh;
      CompletedChunkIsGood(world, deploymentBlock, old(Current()), logs, until, asked, old(requests));
      ChunkIsIndexed(old(Index()), logs, world, old(requests), asked);
    }

    /** Scanning may go on at `from`: the last scanned block again, or the one after an exact replay. */
    ghost predicate Resumes(chain: Chain, from: int)
      reads this`lastScannedBlock, this`ownership
    {
      from == lastScannedBlock ||
      (from == lastScannedBlock + 1 && ownership == Replay(chain, deploymentBlock, lastScannedBlock))
    }

    /** Fetches the next chunk; applying its logs gives the one-shot replay up to its last block. */
    method FetchNext(world: World, from: int, toBlock: int, ghost initialChunk: int) returns (fetched: Option<(seq<Log>, int)>)
      requires Valid(world.chain) && initialChunk > 0 && Accounted(initialChunk)
      requires from <= toBlock && Resumes(world.chain, from) && ThrowsAtGivingUp(world, toBlock, sent, true)
      modifies this`logChunkSize, this`chunkSuccesses, this`requests, this`counts, this`sent
      ensures Valid(world.chain) && Accounted(initialChunk) && ThrowsAtGivingUp(world, toBlock, sent, fetched.Some?)
      ensures fetched.Some? ==>
                && from <= fetched.value.1 <= toBlock
                && Apply(ownership, fetched.value.0) == Replay(world.chain, deploymentBlock, fetched.value.1)
                && forall log :: log in fetched.value.0 ==> log.blockNumber <= fetched.value.1
    {
      ghost var before := Current();
      fetched := FetchAdaptiveChunk(world, from, toBlock, initialChunk);
      TriesJoin(world, from, toBlock, old(requests), old(sent), sent[|old(sent)|..], fetched.Some?);
      assert sent == old(sent) + sent[|old(sent)|..];
      if fetched.Some? {
        ResumedScanCatchesUp(world.chain, deploymentBlock, before, from, fetched.value.1);
      }
    }

    /** Fetches and indexes one chunk; `None` means the fetch threw and nothing was indexed. */
    method NextChunk(world: World, from: int, toBlock: int, ghost initialChunk: int) returns (until: Option<int>)
      requires Valid(world.chain) && initialChunk > 0 && Accounted(initialChunk)
      requires from <= toBlock && Resumes(world.chain, from) && ThrowsAtGivingUp(world, toBlock, sent, true)
      modifies this
      ensures Valid(world.chain) && Accounted(initialChunk) && latestBlock == old(latestBlock)
      ensures ThrowsAtGivingUp(world, toBlock, sent, until.Some?)
      ensures until.None? ==> lastScannedBlock == old(lastScannedBlock)
      ensures until.Some? ==>
                && from <= until.value <= toBlock && lastScannedBlock == until.value
                && Resumes(world.chain, until.value + 1)
    {
      var fetched := FetchNext(world, from, toBlock, initialChunk);
      if fetched.None? {
        return None;
      }
      ghost var asked := IndexChunk(world, fetched.value.1, fetched.value.0);
      until := Some(fetched.value.1);
    }

    /** The counters of a new scan. */
    method StartScan() returns (ghost initialChunk: int)
      requires ChunkInRange()
      modifies this`chunkSuccesses, this`counts, this`sent
      ensures initialChunk == logChunkSize && Accounted(initialChunk) && sent == []
    {
      initialChunk := logChunkSize;
      chunkSuccesses := 0;
      counts, sent := NO_COUNTS, [];
    }

    /**
     * Indexes the blocks from the last scanned one to `toBlock`, chunk by chunk. It ends on every
     * oracle. After every completed chunk the ownership is the one-shot replay of all blocks so far,
     * whatever chunk sizes, rejections and failures there were. It throws (`ok` is false) exactly at the
     * first request that fails or that is rejected for a chunk of one block.
     */
    method IndexRange(world: World, toBlock: int) returns (ok: bool)
      requires Valid(world.chain) && lastScannedBlock <= toBlock
      modifies this
      ensures Valid(world.chain) && latestBlock == old(latestBlock)
      ensures old(lastScannedBlock) <= lastScannedBlock <= toBlock
      ensures ok ==> lastScannedBlock == toBlock && ownership == Replay(world.chain, deploymentBlock, toBlock)
      ensures !counts.capNamed ==> counts.shrinks <= FloorLog2(old(logChunkSize)) + counts.growths
      ensures 5 * counts.growths <= counts.chunks
      ensures counts.calm >= 5 * (FloorLog2(ceiling) + 1) ==> logChunkSize == ceiling
      ensures ThrowsAtGivingUp(world, toBlock, sent, ok)
    {
      ghost var initialChunk := StartScan();
      var from := lastScannedBlock;
      while from <= toBlock
        invariant old(lastScannedBlock) <= lastScannedBlock <= toBlock
        invariant Resumes(world.chain, from)
        invariant ThrowsAtGivingUp(world, toBlock, sent, true)
        invariant Valid(world.chain) && Accounted(initialChunk) && latestBlock == old(latestBlock)
        decreases toBlock - from
      {
        var until := NextChunk(world, from, toBlock, initialChunk);
        if until.None? {
          counts.ChunkRecovers(initialChunk, ceiling, logChunkSize, chunkSuccesses);
          return false;
        }
        from := until.value + 1;
      }
      counts.ChunkRecovers(initialChunk, ceiling, logChunkSize, chunkSuccesses);
      return true;
    }

    /** Catches up to the chain tip; `tip` is None when reading it throws. */
    method CatchUp(world: World, tip: Option<int>) returns (ok: bool)
      requires Valid(world.chain)
      modifies this
      ensures Valid(world.chain) && lastScannedBlock >= old(lastScannedBlock)
      ensures ok ==> tip.Some? && latestBlock == tip.value && lastScannedBlock >= tip.value
      // It fails only when the tip cannot be read or a request gives up.
      ensures tip.Some? && old(lastScannedBlock) < tip.value ==> ThrowsAtGivingUp(world, tip.value, sent, ok)
      ensures tip.Some? && (Patient(world) || old(lastScannedBlock) >= tip.value) ==> ok
      ensures ok && old(lastScannedBlock) < tip.value ==> lastScannedBlock == tip.value
      // The exact case: something was left to read, or the state was a replay before.
      ensures ok ==>
                (ownership == Replay(world.chain, deploymentBlock, lastScannedBlock) <==>
                 old(lastScannedBlock) < tip.value || old(ownership) == Replay(world.chain, deploymentBlock, old(lastScannedBlock)))
    {
      if tip.None? {
        return false;
      }
      latestBlock := tip.value;
      if lastScannedBlock >= tip.value {
        return true;
      }
      ok := IndexRange(world, tip.value);
      PatientScanEnds(world, tip.value, sent, ok);
    }

    /** Takes over the state file, if there is one and it can be read. */
    method LoadState(chain: Chain, readable: bool)
      requires Valid(chain)
      modifies this`lastScannedBlock, this`ownership, this`tokenEditors, this`editorTokens
      ensures Valid(chain)
      ensures Current() == if readable && stateFile.Some? then Loaded(stateFile) else old(Current())
    {
      if readable && stateFile.Some? {
        var parsed := stateFile.value;
        lastScannedBlock := if parsed.lastScannedBlock < deploymentBlock then deploymentBlock else parsed.lastScannedBlock;
        ownership, tokenEditors, editorTokens := parsed.ownership, parsed.editors.byToken, parsed.editors.byEditor;
      }
    }

    /** A process restart: everything in memory is gone, then the file is loaded. */
    method Restart(chain: Chain, readable: bool)
      requires Valid(chain)
      modifies this
      ensures Valid(chain)
      ensures Current() == if readable && stateFile.Some? then Loaded(stateFile) else Snapshot(deploymentBlock, map[], NO_EDITORS, stateFile)
      ensures stateFile == old(stateFile)
    {
      ownership, tokenEditors, editorTokens := map[], map[], map[];
      lastScannedBlock, latestBlock, chunkSuccesses := deploymentBlock, 0, 0;
      logChunkSize := ceiling;
      FreshIsGood(chain, deploymentBlock, old(Current()));
      LoadState(chain, readable);
    }

    // -------------------------------------------------------------------------------------
    // Queries
    // -------------------------------------------------------------------------------------

    /** What a scan of every token's editor list would report: edited by `a`, owned by someone else. */
    ghost predicate SharedWith(a: Address, t: TokenId)
      reads this
    {
      && t in tokenEditors && a in tokenEditors[t]
      && t in ownership && ownership[t] != "" && ownership[t] != a
    }

    /** Reads one reverse list, and reports what the slow scan over all tokens would. */
    method GetSharedTokens(a: Address) returns (shared: seq<TokenId>)
      requires Index().Inverse()
      ensures Distinct(shared) && forall t :: t in shared <==> SharedWith(a, t)
    {
      shared := [];
      var candidates := if a in editorTokens then editorTokens[a] else [];
      for i := 0 to |candidates|
        invariant Distinct(shared)
        invariant forall t :: t in shared <==> t in candidates[..i] && t in ownership && ownership[t] != "" && ownership[t] != a
      {
        assert candidates[..i + 1] == candidates[..i] + [candidates[i]];
        assert candidates[i] !in candidates[..i];
        var t := candidates[i];
        if t in ownership && ownership[t] != "" && ownership[t] != a {
          shared := shared + [t];
        }
      }
      assert candidates[..|candidates|] == candidates;
    }
  }
}
