/** The reachability collector: discover live tokens, walk their manifests, mark, sweep. */
module IpfsGc {
  import opened Wrappers
  import opened ManifestStore
  import opened ManifestWalk
  import opened FullWalk
  import opened WalkErrors
  import opened ManifestChainWalker
  import opened GcHistory

  const GC_MAX_CHAIN_DEPTH := 10000
  const GC_WALK := WalkOptions(true, true, GC_MAX_CHAIN_DEPTH)
  const ZERO_ADDRESS := "0x0000000000000000000000000000000000000000"

  type TokenId = string

  datatype MintLog = MintLog(block: int, tokenId: Option<TokenId>)

  /** A revert proves that a token is burned or a function missing; an RPC failure proves nothing. */
  datatype Answer = Returned(value: string) | Reverted | Unavailable

  /** Everything one run can read from one contract. */
  datatype Contract = Contract(
    deployBlock: int,
    endBlock: Option<int>,
    mints: seq<MintLog>,
    logsFail: (int, int) -> bool,
    ownerOf: TokenId -> Answer,
    tokenUri: TokenId -> Answer,
    editorListUri: TokenId -> Answer)

  datatype GcError =
    | DiscoverFailed | OwnerUnknown(t: TokenId) | UriFailed(t: TokenId) | WalkThrew(u: Cid) | WalkFailed(e: WalkError)
    | EditorListFailed(t: TokenId) | ListFailed | UnpinFailed(c: Cid) | SaveFailed

  // ---------------------------------------------------------------------------------------
  // Live tokens
  // ---------------------------------------------------------------------------------------

  ghost predicate MintedBetween(mints: seq<MintLog>, from: int, to: int, t: TokenId) {
    exists log :: log in mints && from <= log.block < to && log.tokenId == Some(t)
  }

  predicate OwnerIsLive(a: Answer) {
    a.Returned? && a.value != "" && a.value != ZERO_ADDRESS
  }

  /** Minted since deployment and owned by a non-zero address. */
  ghost predicate Live(contract: Contract, t: TokenId) {
    contract.endBlock.Some? && MintedBetween(contract.mints, contract.deployBlock, contract.endBlock.value + 1, t) &&
    OwnerIsLive(contract.ownerOf(t))
  }

  /** The log requests from block `from` on, batch by batch, are all answered. */
  predicate BatchesAnswer(contract: Contract, from: int, endBlock: int, batchSize: int)
    requires batchSize > 0
    decreases endBlock - from
  {
    from <= endBlock ==>
      && !contract.logsFail(from, if from + batchSize - 1 <= endBlock then from + batchSize - 1 else endBlock)
      && BatchesAnswer(contract, from + batchSize, endBlock, batchSize)
  }

  predicate MintsAnswer(contract: Contract, batchSize: int)
    requires batchSize > 0
  {
    contract.endBlock.Some? && BatchesAnswer(contract, contract.deployBlock, contract.endBlock.value, batchSize)
  }

  /** Every answer that discovery needs arrives: the minted tokens and, for each of them, whether it lives. */
  ghost predicate Answers(contract: Contract, batchSize: int)
    requires batchSize > 0
  {
    && MintsAnswer(contract, batchSize)
    && (forall t :: MintedBetween(contract.mints, contract.deployBlock, contract.endBlock.value + 1, t) ==> !contract.ownerOf(t).Unavailable?)
  }

  /** Mint logs of one block range, as the RPC returns them. */
  function LogsIn(mints: seq<MintLog>, from: int, to: int): (r: seq<MintLog>)
    ensures forall log :: log in r <==> log in mints && from <= log.block <= to
  {
    if mints == [] then []
    else LogsIn(mints[..|mints| - 1], from, to) +
         (if from <= mints[|mints| - 1].block <= to then [mints[|mints| - 1]] else [])
  }

  method ScanMintedTokenIds(contract: Contract, batchSize: int) returns (minted: Option<seq<TokenId>>)
    requires batchSize > 0
    ensures minted.Some? <==> MintsAnswer(contract, batchSize)
    ensures minted.Some? ==>
              forall t :: t in minted.value <==> MintedBetween(contract.mints, contract.deployBlock, contract.endBlock.value + 1, t)
    ensures minted.Some? ==> forall i, j :: 0 <= i < j < |minted.value| ==> minted.value[i] != minted.value[j]
  {
    if contract.endBlock.None? {
      return None;
    }
    var endBlock := contract.endBlock.value;
    var ids: seq<TokenId> := [];
    var fromBlock := contract.deployBlock;
    while fromBlock <= endBlock
      invariant contract.deployBlock <= fromBlock
      invariant forall t :: t in ids <==> MintedBetween(contract.mints, contract.deployBlock, if fromBlock <= endBlock then fromBlock else endBlock + 1, t)
      invariant forall i, j :: 0 <= i < j < |ids| ==> ids[i] != ids[j]
      invariant BatchesAnswer(contract, contract.deployBlock, endBlock, batchSize) <==> BatchesAnswer(contract, fromBlock, endBlock, batchSize)
      decreases endBlock - fromBlock
    {
      var toBlock := if fromBlock + batchSize - 1 <= endBlock then fromBlock + batchSize - 1 else endBlock;
      if contract.logsFail(fromBlock, toBlock) {
        return None;
      }
      var logs := LogsIn(contract.mints, fromBlock, toBlock);
      ids := AddTokenIds(ids, logs);
      MintedRangesJoin(contract.mints, contract.deployBlock, fromBlock, toBlock + 1);
      fromBlock := fromBlock + batchSize;
    }
    return Some(ids);
  }

  /** Adds the logs' token ids to an insertion-ordered set. */
  method AddTokenIds(ids: seq<TokenId>, logs: seq<MintLog>) returns (r: seq<TokenId>)
    requires forall i, j :: 0 <= i < j < |ids| ==> ids[i] != ids[j]
    ensures forall i, j :: 0 <= i < j < |r| ==> r[i] != r[j]
    ensures forall t :: t in r <==> t in ids || exists log :: log in logs && log.tokenId == Some(t)
  {
    r := ids;
    for i := 0 to |logs|
      invariant forall i, j :: 0 <= i < j < |r| ==> r[i] != r[j]
      invariant forall t :: t in r <==> t in ids || exists log :: log in logs[..i] && log.tokenId == Some(t)
    {
      var tokenId := logs[i].tokenId;
      assert logs[..i + 1] == logs[..i] + [logs[i]];
      if tokenId.Some? && tokenId.value !in r {
        r := r + [tokenId.value];
      }
    }
    assert logs[..|logs|] == logs;
  }

  lemma MintedRangesJoin(mints: seq<MintLog>, a: int, b: int, c: int)
    requires a <= b <= c
    ensures forall t :: MintedBetween(mints, a, c, t) <==> MintedBetween(mints, a, b, t) || MintedBetween(mints, b, c, t)
  {
  }

  method DiscoverLiveTokenIds(contract: Contract, batchSize: int) returns (live: Option<seq<TokenId>>, errors: seq<GcError>)
    requires batchSize > 0
    ensures live.Some? ==> forall t :: t in live.value <==> Live(contract, t)
    // A token whose owner is unknown is an error, never a burn.
    ensures live.Some? && errors == [] <==> Answers(contract, batchSize)
  {
    errors := [];
    var minted := ScanMintedTokenIds(contract, batchSize);
    if minted.None? {
      return None, [];
    }
    var ids := minted.value;
    var found: seq<TokenId> := [];
    for i := 0 to |ids|
      invariant forall t :: t in found <==> t in ids[..i] && OwnerIsLive(contract.ownerOf(t))
      invariant errors == [] <==> forall t :: t in ids[..i] ==> !contract.ownerOf(t).Unavailable?
    {
      assert ids[..i + 1] == ids[..i] + [ids[i]] && ids[i] in ids;
      match contract.ownerOf(ids[i])
      case Returned(owner) =>
        if owner != "" && owner != ZERO_ADDRESS {
          found := found + [ids[i]];
        }
      case Reverted =>
      case Unavailable => errors := errors + [OwnerUnknown(ids[i])];
    }
    assert ids[..|ids|] == ids;
    return Some(found), errors;
  }

  /** The contracts that were scanned with their live tokens; without errors, all of them. */
  method DiscoverAllLiveTokens(contracts: seq<Contract>, batchSize: int)
    returns (liveByContract: seq<(Contract, seq<TokenId>)>, errors: seq<GcError>)
    requires batchSize > 0
    ensures forall p :: p in liveByContract ==> p.0 in contracts && forall t :: t in p.1 <==> Live(p.0, t)
    ensures errors == [] ==> forall contract :: contract in contracts ==> exists p :: p in liveByContract && p.0 == contract
    ensures errors == [] <==> forall contract :: contract in contracts ==> Answers(contract, batchSize)
  {
    liveByContract, errors := [], [];
    for i := 0 to |contracts|
      invariant forall p :: p in liveByContract ==> p.0 in contracts && forall t :: t in p.1 <==> Live(p.0, t)
      invariant errors == [] ==> forall contract :: contract in contracts[..i] ==> exists p :: p in liveByContract && p.0 == contract
      invariant errors == [] <==> forall contract :: contract in contracts[..i] ==> Answers(contract, batchSize)
    {
      ghost var before := liveByContract;
      var live, ownerErrors := DiscoverLiveTokenIds(contracts[i], batchSize);
      if live.None? {
        errors := errors + [DiscoverFailed];
      } else {
        liveByContract := liveByContract + [(contracts[i], live.value)];
        errors := errors + ownerErrors;
        assert (contracts[i], live.value) in liveByContract;
        assert forall p :: p in before ==> p in liveByContract;
      }
      assert contracts[..i + 1] == contracts[..i] + [contracts[i]];
    }
    assert contracts[..|contracts|] == contracts;
  }

  // ---------------------------------------------------------------------------------------
  // What live tokens protect
  // ---------------------------------------------------------------------------------------

  function StripIpfs(uri: string): Cid {
    if |uri| >= 7 && uri[..7] == "ipfs://" then uri[7..] else uri
  }

  /** A CID reads the same with and without its scheme. */
  lemma StripIpfsKeepsCid(c: Cid)
    ensures StripIpfs("ipfs://" + c) == c
    ensures !("ipfs://" <= c) ==> StripIpfs(c) == c
  {
    assert ("ipfs://" + c)[..7] == "ipfs://";
  }

  /** Content of a live token: safely reachable from its URI, or its current editor list. */
  ghost predicate TokenProtects(store: Store, contract: Contract, t: TokenId, c: Cid) {
    var uri := contract.tokenUri(t);
    && uri.Returned? && uri.value != ""
    && (SafelyReachable(store, uri.value, c) ||
        (contract.editorListUri(t).Returned? && c != "" && c == StripIpfs(contract.editorListUri(t).value)))
  }

  /** The most a live token can protect: anything reachable, by safe links or not. */
  ghost predicate TokenMayProtect(store: Store, contract: Contract, t: TokenId, c: Cid) {
    var uri := contract.tokenUri(t);
    && uri.Returned? && uri.value != ""
    && (Reachable(store, uri.value, c) ||
        (contract.editorListUri(t).Returned? && c != "" && c == StripIpfs(contract.editorListUri(t).value)))
  }

  /** The reads a live token needs besides its manifest walk. */
  predicate TokenIsRead(contract: Contract, t: TokenId) {
    contract.tokenUri(t).Returned? && (contract.tokenUri(t).value != "" ==> !contract.editorListUri(t).Unavailable?)
  }

  /** Everything below a live token can be read: its documents and their sources, along chains within the budget. */
  ghost predicate TokenAnswers(store: Store, contract: Contract, t: TokenId) {
    && TokenIsRead(contract, t)
    && (contract.tokenUri(t).value != "" ==> AllReadable(store, contract.tokenUri(t).value, GC_MAX_CHAIN_DEPTH))
  }

  /** What cannot have failed unnoticed: a document on a safe path, or a source of one whose marker is not reachable. */
  ghost predicate DocumentWasRead(store: Store, start: Cid, c: Cid) {
    && store(c).Json? && !SceneUnusable(store, c)
    && (HasManifest(store, c) ==>
          forall source :: source in SourceCids(NodesOf(ManifestOf(store, c))) && !Reachable(store, start, FailedMarker(source)) ==>
                             !store(source).Unreadable?)
  }

  ghost predicate TokenWasRead(store: Store, contract: Contract, t: TokenId) {
    && TokenIsRead(contract, t)
    && var uri := contract.tokenUri(t).value;
       uri != "" ==> forall c :: SafelyLedTo(store, uri, c) ==> DocumentWasRead(store, uri, c)
  }

  /** The shape on which the two agree: no collection below a collection's asset, no marker, no chain beyond the budget. */
  ghost predicate TokenIsRegular(store: Store, contract: Contract, t: TokenId) {
    var uri := contract.tokenUri(t);
    uri.Returned? && uri.value != "" ==>
      && FlatCollections(store, uri.value) && NoMarkers(store, uri.value)
      && ChainsFit(store, LedTo(store, uri.value), GC_MAX_CHAIN_DEPTH)
  }

  /** No read of a live token fails, and its manifest walk is clean. */
  ghost predicate TokenIsClean(store: Store, contract: Contract, t: TokenId) {
    var uri := contract.tokenUri(t);
    && TokenIsRead(contract, t)
    && (uri.value != "" ==> CleanEnd(WalkChain(store, GC_WALK, uri.value, uri.value, 0, EMPTY_WALK)))
  }

  /** A token that answers everything has no error, one without an error was read, and a regular one has none exactly when it answers. */
  lemma TokenIsCleanIff(store: Store, contract: Contract, t: TokenId)
    ensures TokenAnswers(store, contract, t) ==> TokenIsClean(store, contract, t)
    ensures TokenIsClean(store, contract, t) ==> TokenWasRead(store, contract, t)
    ensures TokenIsRegular(store, contract, t) ==> (TokenIsClean(store, contract, t) <==> TokenAnswers(store, contract, t))
  {
    var uri := contract.tokenUri(t);
    if TokenIsRead(contract, t) && uri.value != "" {
      if AllReadable(store, uri.value, GC_MAX_CHAIN_DEPTH) {
        ReadableWalkIsClean(store, GC_WALK, uri.value);
      }
      if TokenIsRegular(store, contract, t) {
        CleanWalkIff(store, GC_WALK, uri.value);
      }
      if TokenIsClean(store, contract, t) {
        forall c | SafelyLedTo(store, uri.value, c) ensures DocumentWasRead(store, uri.value, c) {
          CleanWalkHasRead(store, GC_WALK, uri.value, c);
        }
      }
    }
  }

  ghost predicate MayBeProtected(store: Store, contracts: seq<Contract>, c: Cid) {
    exists contract, t :: contract in contracts && Live(contract, t) && TokenMayProtect(store, contract, t, c)
  }

  ghost predicate Protected(store: Store, contracts: seq<Contract>, c: Cid) {
    exists contract, t :: contract in contracts && Live(contract, t) && TokenProtects(store, contract, t, c)
  }

  method ProtectToken(contract: Contract, t: TokenId, store: Store)
    returns (reachable: set<Cid>, errors: seq<GcError>, processed: nat)
    ensures errors == [] <==> TokenIsClean(store, contract, t)
    ensures forall c :: c in reachable ==> TokenMayProtect(store, contract, t, c)
    ensures errors == [] ==> forall c :: TokenProtects(store, contract, t, c) ==> c in reachable
    ensures processed == if contract.tokenUri(t).Returned? && contract.tokenUri(t).value != "" then 1 else 0
  {
    reachable, errors := {}, [];
    var uri := contract.tokenUri(t);
    if !uri.Returned? {
      return {}, [UriFailed(t)], 0;
    }
    var manifestCid := uri.value;
    if manifestCid == "" {
      return {}, [], 0;
    }
    processed := 1;
    var walk := WalkManifestChain(store, GC_WALK, manifestCid, store);
    match walk {
      case None => errors := errors + [WalkThrew(manifestCid)];
      case Some(result) =>
        reachable := result.allReachable;
        errors := errors + seq(|result.errors|, i requires 0 <= i < |result.errors| => WalkFailed(result.errors[i]));
        assert errors == [] ==> result.errors == [];
    }
    match contract.editorListUri(t) {
      case Returned(editors) =>
        var cid := StripIpfs(editors);
        if editors != "" && cid != "" {
          reachable := reachable + {cid};
        }
      case Reverted =>
      case Unavailable => errors := errors + [EditorListFailed(t)];
    }
  }

  method BuildReachableSet(liveByContract: seq<(Contract, seq<TokenId>)>, store: Store)
    returns (reachable: set<Cid>, errors: seq<GcError>, processed: nat)
    ensures errors == [] ==>
              forall p, t, c :: p in liveByContract && t in p.1 && TokenProtects(store, p.0, t, c) ==> c in reachable
    ensures forall c :: c in reachable ==> exists p, t :: p in liveByContract && t in p.1 && TokenMayProtect(store, p.0, t, c)
    ensures errors == [] <==> forall p, t :: p in liveByContract && t in p.1 ==> TokenIsClean(store, p.0, t)
  {
    reachable, errors, processed := {}, [], 0;
    for i := 0 to |liveByContract|
      invariant errors == [] ==>
                  forall p, t, c :: p in liveByContract[..i] && t in p.1 && TokenProtects(store, p.0, t, c) ==> c in reachable
      invariant forall c :: c in reachable ==> exists p, t :: p in liveByContract && t in p.1 && TokenMayProtect(store, p.0, t, c)
      invariant errors == [] <==> forall p, t :: p in liveByContract[..i] && t in p.1 ==> TokenIsClean(store, p.0, t)
    {
      var (contract, tokenIds) := liveByContract[i];
      ghost var before := reachable;
      for j := 0 to |tokenIds|
        invariant before <= reachable
        invariant errors == [] ==>
                    forall p, t, c :: p in liveByContract[..i] && t in p.1 && TokenProtects(store, p.0, t, c) ==> c in reachable
        invariant errors == [] ==>
                    forall t, c :: t in tokenIds[..j] && TokenProtects(store, contract, t, c) ==> c in reachable
        invariant forall c :: c in reachable ==> exists p, t :: p in liveByContract && t in p.1 && TokenMayProtect(store, p.0, t, c)
        invariant errors == [] <==>
                    (forall p, t :: p in liveByContract[..i] && t in p.1 ==> TokenIsClean(store, p.0, t)) &&
                    (forall t :: t in tokenIds[..j] ==> TokenIsClean(store, contract, t))
      {
        var more, tokenErrors, n := ProtectToken(contract, tokenIds[j], store);
        assert liveByContract[i] in liveByContract && liveByContract[i].0 == contract && tokenIds[j] in liveByContract[i].1;
        reachable, errors, processed := reachable + more, errors + tokenErrors, processed + n;
        assert tokenIds[..j + 1] == tokenIds[..j] + [tokenIds[j]];
      }
      assert tokenIds[..|tokenIds|] == tokenIds;
      assert liveByContract[..i + 1] == liveByContract[..i] + [liveByContract[i]];
    }
    assert liveByContract[..|liveByContract|] == liveByContract;
  }

  // ---------------------------------------------------------------------------------------
  // Mark and sweep
  // ---------------------------------------------------------------------------------------

  function Unreached(pinned: seq<Cid>, reachable: set<Cid>): (r: seq<Cid>)
    ensures forall c :: c in r <==> c in pinned && c !in reachable
  {
    if pinned == [] then []
    else Unreached(pinned[..|pinned| - 1], reachable) +
         (if pinned[|pinned| - 1] in reachable then [] else [pinned[|pinned| - 1]])
  }

  /** The orphans, in listing order, that have been marked for at least the grace period. */
  function Eligible(orphans: seq<Cid>, since: Marks, now: int, graceMs: int): (r: seq<Cid>)
    ensures forall c :: c in r <==> c in orphans && c in since && now - since[c] >= graceMs
    ensures |r| <= |orphans|
  {
    if orphans == [] then [] else
    var last := orphans[|orphans| - 1];
    Eligible(orphans[..|orphans| - 1], since, now, graceMs) + if last in since && now - since[last] >= graceMs then [last] else []
  }

  method MarkOrphans(orphans: seq<Cid>, previous: Marks, now: int, graceMs: int)
    returns (orphanSince: Marks, eligible: seq<Cid>)
    ensures orphanSince == FirstSeen(orphans, previous, now)
    ensures eligible == Eligible(orphans, orphanSince, now, graceMs)
    ensures forall c :: c in eligible <==> c in orphans && now - orphanSince[c] >= graceMs
  {
    orphanSince := map[];
    for i := 0 to |orphans|
      invariant orphanSince == FirstSeen(orphans[..i], previous, now)
    {
      var cid := orphans[i];
      orphanSince := orphanSince[cid := if cid in previous then previous[cid] else now];
      assert orphans[..i + 1] == orphans[..i] + [orphans[i]];
    }
    assert orphans[..|orphans|] == orphans;
    eligible := Eligible(orphans, orphanSince, now, graceMs);
  }

  /** The CIDs whose unpin request, by position, the storage answers with success. */
  function Successes(toUnpin: seq<Cid>, unpinSucceeds: nat -> bool): (r: seq<Cid>)
    ensures forall c :: c in r <==> exists i :: 0 <= i < |toUnpin| && unpinSucceeds(i) && toUnpin[i] == c
    ensures (forall i :: unpinSucceeds(i)) ==> r == toUnpin
  {
    if toUnpin == [] then [] else
    var n := |toUnpin| - 1;
    Successes(toUnpin[..n], unpinSucceeds) + if unpinSucceeds(n) then [toUnpin[n]] else []
  }

  /** JavaScript's `slice(0, max)`: a negative bound counts from the end; none means all. */
  function SliceFromStart(s: seq<Cid>, max: Option<int>): (r: seq<Cid>)
    ensures r <= s
    ensures max == None ==> r == s
    ensures max.Some? && max.value >= 0 ==> |r| == if max.value < |s| then max.value else |s|
    ensures max.Some? && max.value < 0 ==> |r| == if -max.value < |s| then |s| + max.value else 0
  {
    if max.None? || max.value >= |s| then s
    else if max.value >= 0 then s[..max.value]
    else if |s| + max.value >= 0 then s[..|s| + max.value]
    else []
  }

  /** One run's options and the answers it will get from storage and disk. */
  datatype RunInput = RunInput(
    dryRun: bool,
    maxUnpin: Option<int>,
    scope: Scope,
    graceMs: int,
    now: int,
    eventBatchSize: int,
    contracts: seq<Contract>,
    store: Store,
    listing: Option<seq<Cid>>,
    fileReadable: bool,
    unpinSucceeds: nat -> bool,
    saveSucceeds: bool)

  datatype GcResult = GcResult(dryRun: bool, aborted: bool, liveTokens: nat, pinned: nat, orphans: nat, eligible: nat, unpinned: nat, errors: seq<GcError>)

  /** The listing and the minted tokens can be read. */
  ghost predicate ReadsTokens(input: RunInput)
    requires input.eventBatchSize > 0
  {
    input.listing.Some? && (forall contract :: contract in input.contracts ==> Answers(contract, input.eventBatchSize))
  }

  /** Everything the run has to read before its unpin step can be read, document by document. */
  ghost predicate ReadsEverything(input: RunInput)
    requires input.eventBatchSize > 0
  {
    && ReadsTokens(input)
    && (forall contract, t :: contract in input.contracts && Live(contract, t) ==> TokenAnswers(input.store, contract, t))
  }

  /** What a run without a prior error has certainly read. */
  ghost predicate HasRead(input: RunInput)
    requires input.eventBatchSize > 0
  {
    && ReadsTokens(input)
    && (forall contract, t :: contract in input.contracts && Live(contract, t) ==> TokenWasRead(input.store, contract, t))
  }

  ghost predicate Regular(input: RunInput) {
    forall contract, t :: contract in input.contracts && Live(contract, t) ==> TokenIsRegular(input.store, contract, t)
  }

  /** No read of the run fails, as the walks come across them. */
  ghost predicate NothingFails(input: RunInput)
    requires input.eventBatchSize > 0
  {
    && ReadsTokens(input)
    && (forall contract, t :: contract in input.contracts && Live(contract, t) ==> TokenIsClean(input.store, contract, t))
  }

  /**
   * When a run is blocked. It is not when everything can be read; when it is not, everything on a safe
   * path was read; and where the documents are regular it is blocked exactly when something cannot be read.
   */
  lemma NothingFailsIff(input: RunInput)
    requires input.eventBatchSize > 0
    ensures ReadsEverything(input) ==> NothingFails(input)
    ensures NothingFails(input) ==> HasRead(input)
    ensures Regular(input) ==> (NothingFails(input) <==> ReadsEverything(input))
  {
    forall contract, t
      ensures TokenAnswers(input.store, contract, t) ==> TokenIsClean(input.store, contract, t)
      ensures TokenIsClean(input.store, contract, t) ==> TokenWasRead(input.store, contract, t)
      ensures TokenIsRegular(input.store, contract, t) && TokenIsClean(input.store, contract, t) ==> TokenAnswers(input.store, contract, t)
    {
      TokenIsCleanIff(input.store, contract, t);
    }
  }

  /** A run is blocked by what it could not read, and by nothing else. */
  ghost predicate BlockedByFailedReads(input: RunInput, blocked: bool)
    requires input.eventBatchSize > 0
  {
    && (blocked <==> !NothingFails(input))
    && (ReadsEverything(input) ==> !blocked)
    && (!blocked ==> HasRead(input))
    && (Regular(input) ==> (blocked <==> !ReadsEverything(input)))
  }

  // ---------------------------------------------------------------------------------------
  // The chain and the storage as they really are
  // ---------------------------------------------------------------------------------------

  /** What the contracts would truly answer, and what is truly stored. */
  datatype Reality = Reality(contracts: seq<Contract>, store: Store)

  predicate SaysTruth(answer: Answer, truth: Answer) {
    answer.Unavailable? || answer == truth
  }

  /** Answers that arrive are true; one that does not arrive says nothing. */
  ghost predicate ContractAgrees(contract: Contract, truth: Contract) {
    && contract.deployBlock == truth.deployBlock && contract.mints == truth.mints
    && (contract.endBlock.Some? ==> contract.endBlock == truth.endBlock)
    && (forall t :: SaysTruth(contract.ownerOf(t), truth.ownerOf(t)))
    && (forall t :: SaysTruth(contract.tokenUri(t), truth.tokenUri(t)))
    && (forall t :: SaysTruth(contract.editorListUri(t), truth.editorListUri(t)))
  }

  ghost predicate Agrees(input: RunInput, reality: Reality) {
    && |input.contracts| == |reality.contracts|
    && (forall i :: 0 <= i < |input.contracts| ==> ContractAgrees(input.contracts[i], reality.contracts[i]))
    && AgreesWith(input.store, reality.store)
  }

  lemma LiveIsSeen(contract: Contract, truth: Contract, t: TokenId, batchSize: int)
    requires batchSize > 0 && ContractAgrees(contract, truth) && Answers(contract, batchSize) && Live(truth, t)
    ensures Live(contract, t)
  {
    assert SaysTruth(contract.ownerOf(t), truth.ownerOf(t));
  }

  lemma ProtectionIsSeen(store: Store, trueStore: Store, contract: Contract, truth: Contract, t: TokenId, c: Cid)
    requires AgreesWith(store, trueStore) && ContractAgrees(contract, truth) && TokenIsClean(store, contract, t)
    requires TokenProtects(trueStore, truth, t, c)
    ensures TokenProtects(store, contract, t, c)
  {
    assert SaysTruth(contract.tokenUri(t), truth.tokenUri(t));
    assert SaysTruth(contract.editorListUri(t), truth.editorListUri(t));
    var uri := contract.tokenUri(t).value;
    if SafelyReachable(trueStore, uri, c) {
      TruthIsSeen(store, trueStore, GC_WALK, uri, c);
    }
  }

  /** When no read failed, whatever a live token really protects is protected in what was read. */
  lemma RealityIsSeen(input: RunInput, reality: Reality, c: Cid)
    requires input.eventBatchSize > 0 && NothingFails(input) && Agrees(input, reality)
    requires Protected(reality.store, reality.contracts, c)
    ensures Protected(input.store, input.contracts, c)
  {
    var truth, t :| truth in reality.contracts && Live(truth, t) && TokenProtects(reality.store, truth, t, c);
    var i :| 0 <= i < |reality.contracts| && reality.contracts[i] == truth;
    var contract := input.contracts[i];
    assert contract in input.contracts && ContractAgrees(contract, truth);
    LiveIsSeen(contract, truth, t, input.eventBatchSize);
    ProtectionIsSeen(input.store, reality.store, contract, truth, t, c);
  }

  lemma ProtectedIsReached(store: Store, contracts: seq<Contract>, live: seq<(Contract, seq<TokenId>)>, reachable: set<Cid>, c: Cid)
    requires forall p :: p in live ==> forall t :: t in p.1 <==> Live(p.0, t)
    requires forall contract :: contract in contracts ==> exists p :: p in live && p.0 == contract
    requires forall p, t, x :: p in live && t in p.1 && TokenProtects(store, p.0, t, x) ==> x in reachable
    requires Protected(store, contracts, c)
    ensures c in reachable
  {
    var contract, t :| contract in contracts && Live(contract, t) && TokenProtects(store, contract, t, c);
    var p :| p in live && p.0 == contract;
    assert t in p.1;
  }

  /**
   * The read-only part of a run. It has no error exactly when everything could be read, and then an
   * orphan is a listed CID that no token which really lives really protects.
   */
  method FindOrphans(input: RunInput, ghost reality: Reality) returns (orphans: seq<Cid>, errors: seq<GcError>, liveTokens: nat)
    requires input.eventBatchSize > 0 && Agrees(input, reality)
    ensures errors == [] <==> NothingFails(input)
    ensures BlockedByFailedReads(input, errors != [])
    ensures input.listing.None? ==> orphans == []
    ensures forall c :: c in orphans ==> input.listing.Some? && c in input.listing.value
    ensures errors == [] ==> forall c :: c in orphans ==> !Protected(reality.store, reality.contracts, c)
    ensures input.listing.Some? ==> forall c :: c in input.listing.value && c !in orphans ==> MayBeProtected(input.store, input.contracts, c)
  {
    var liveByContract, discoverErrors := DiscoverAllLiveTokens(input.contracts, input.eventBatchSize);
    var reachable, walkErrors, processed := BuildReachableSet(liveByContract, input.store);
    errors, liveTokens := discoverErrors + walkErrors, processed;
    NothingFailsIff(input);
    if input.listing.None? {
      return [], errors + [ListFailed], liveTokens;
    }
    orphans := Unreached(input.listing.value, reachable);
    if errors == [] {
      forall c | c in orphans ensures !Protected(reality.store, reality.contracts, c) {
        if Protected(reality.store, reality.contracts, c) {
          RealityIsSeen(input, reality, c);
          ProtectedIsReached(input.store, input.contracts, liveByContract, reachable, c);
        }
      }
    }
  }

  /** The state file and the pins of one storage backend, across runs. */
  class Collector {
    var file: Marked
    var pins: set<Cid>
    ghost var runs: seq<Run>
    ghost var files: seq<Marked>

    /** The file is the outcome of the recorded runs, each of which was allowed. */
    ghost predicate Valid()
      reads this
    {
      History(runs, files) && files[|runs|] == file
    }

    constructor (pins: set<Cid>)
      ensures Valid() && runs == [] && this.pins == pins
    {
      file, this.pins := map[], pins;
      runs, files := [], [map[]];
    }

    /** Unpins in order; every success leaves the pins and loses its mark. */
    method UnpinEligible(toUnpin: seq<Cid>, marks: Marks, unpinSucceeds: nat -> bool)
      returns (orphanSince: Marks, unpinned: seq<Cid>, errors: seq<GcError>)
      modifies this`pins
      ensures orphanSince == marks - Elements(unpinned)
      ensures pins == old(pins) - Elements(unpinned)
      ensures forall c :: c in unpinned ==> c in toUnpin
      ensures |unpinned| + |errors| == |toUnpin|
      ensures unpinned == Successes(toUnpin, unpinSucceeds)
    {
      orphanSince, unpinned, errors := marks, [], [];
      for i := 0 to |toUnpin|
        invariant orphanSince == marks - Elements(unpinned)
        invariant pins == old(pins) - Elements(unpinned)
        invariant forall c :: c in unpinned ==> c in toUnpin
        invariant |unpinned| + |errors| == i
        invariant unpinned == Successes(toUnpin[..i], unpinSucceeds)
      {
        assert toUnpin[..i + 1][..i] == toUnpin[..i];
        if unpinSucceeds(i) {
          pins := pins - {toUnpin[i]};
          unpinned := unpinned + [toUnpin[i]];
          orphanSince := orphanSince - {toUnpin[i]};
        } else {
          errors := errors + [UnpinFailed(toUnpin[i])];
        }
      }
      assert toUnpin[..|toUnpin|] == toUnpin;
    }

    /** The orphans whose first-seen time is at least the grace period ago. */
    static ghost function PastGrace(file: Marked, input: RunInput, orphans: seq<Cid>): seq<Cid> {
      Eligible(orphans, FirstSeen(orphans, MarksOf(Loaded(file, input.fileReadable), input.scope), input.now), input.now, input.graceMs)
    }

    /** An orphan that readable runs have kept seeing for the grace period is past it. */
    static lemma OverdueIsPastGrace(runs: seq<Run>, files: seq<Marked>, input: RunInput, orphans: seq<Cid>, c: Cid)
      requires History(runs, files) && ClockAdvances(runs) && input.fileReadable && c in orphans
      requires OrphanFor(runs, input.scope, c, input.now, input.graceMs)
      ensures c in PastGrace(files[|runs|], input, orphans)
    {
      var i: nat :| SeenSince(runs, i, |runs|, input.scope, c) && ReadableSince(runs, i, |runs|) && input.now - runs[i].now >= input.graceMs;
      MarkIsKept(runs, files, i, |runs|, input.scope, c);
    }

    /** A run that loses nothing and that nothing holds back. */
    static ghost predicate Unhindered(input: RunInput, run: Run) {
      run.Sweeps() && input.fileReadable && input.maxUnpin.None? && (forall i :: input.unpinSucceeds(i))
    }

    /** An unhindered run unpins every orphan that readable runs have kept seeing for the grace period. */
    static ghost predicate UnpinsOverdue(runs: seq<Run>, input: RunInput, run: Run) {
      ClockAdvances(runs) && Unhindered(input, run) ==>
        forall c :: c in run.orphans && OrphanFor(runs, input.scope, c, input.now, input.graceMs) ==> c in run.unpinned
    }

    static lemma SweepUnpinsOverdue(runs: seq<Run>, files: seq<Marked>, input: RunInput, run: Run)
      requires History(runs, files)
      requires Unhindered(input, run) ==> run.unpinned == PastGrace(files[|runs|], input, run.orphans)
      ensures UnpinsOverdue(runs, input, run)
    {
      if ClockAdvances(runs) && Unhindered(input, run) {
        forall c | c in run.orphans && OrphanFor(runs, input.scope, c, input.now, input.graceMs) ensures c in run.unpinned {
          OverdueIsPastGrace(runs, files, input, run.orphans, c);
        }
      }
    }

    /** Marks the orphans, unpins those past their grace and commits the marks, unless dry or blocked. */
    method Sweep(input: RunInput, orphans: seq<Cid>, priorErrors: bool)
      returns (eligible: nat, unpinned: seq<Cid>, committed: bool, errors: seq<GcError>)
      modifies this`file, this`pins
      ensures
        var run := Run(input.scope, input.now, input.graceMs, input.dryRun, priorErrors, input.fileReadable, orphans, unpinned, committed);
        && Allowed(old(file), run) && file == FileAfter(old(file), run)
        && (committed <==> run.Sweeps() && input.saveSucceeds)
      ensures eligible == |PastGrace(old(file), input, orphans)|
      ensures unpinned == if input.dryRun || priorErrors then []
                          else Successes(SliceFromStart(PastGrace(old(file), input, orphans), input.maxUnpin), input.unpinSucceeds)
      ensures pins == old(pins) - Elements(unpinned)
      ensures input.maxUnpin.Some? && input.maxUnpin.value >= 0 ==> |unpinned| <= input.maxUnpin.value
    {
      var state := Loaded(file, input.fileReadable);
      var orphanSince, ready := MarkOrphans(orphans, MarksOf(state, input.scope), input.now, input.graceMs);
      var toUnpin := SliceFromStart(ready, input.maxUnpin);
      eligible, unpinned, committed, errors := |ready|, [], false, [];
      if !input.dryRun && !priorErrors {
        orphanSince, unpinned, errors := UnpinEligible(toUnpin, orphanSince, input.unpinSucceeds);
        if input.saveSucceeds {
          file := state[input.scope := orphanSince];
          committed := true;
        } else {
          errors := errors + [SaveFailed];
        }
      }
    }

    /** What the record of a run says about its input, its result and the pins. */
    ghost predicate Recorded(run: Run, input: RunInput, result: GcResult, pinsBefore: set<Cid>, fileBefore: Marked)
      requires input.eventBatchSize > 0
      reads this
    {
      && run.scope == input.scope && run.now == input.now && run.graceMs == input.graceMs && run.dryRun == input.dryRun
      && run.readable == input.fileReadable
      && pins == pinsBefore - Elements(run.unpinned)
      && (input.listing.Some? ==> result.pinned == |input.listing.value|)
      && result.orphans == |run.orphans| && result.unpinned == |run.unpinned|
      && result.eligible == |PastGrace(fileBefore, input, run.orphans)|
      && result.aborted == (!input.dryRun && run.priorErrors)
      && (input.maxUnpin.Some? && input.maxUnpin.value >= 0 ==> |run.unpinned| <= input.maxUnpin.value)
      && (run.committed <==> run.Sweeps() && input.saveSucceeds && input.listing.Some?)
      && (run.priorErrors ==> result.errors != [])
      && BlockedByFailedReads(input, run.priorErrors)
      && (Unhindered(input, run) ==> run.unpinned == PastGrace(fileBefore, input, run.orphans))
      && (input.listing.Some? ==> forall c :: c in input.listing.value && c !in run.orphans ==> MayBeProtected(input.store, input.contracts, c))
    }

    /**
     * One run. A read that fails before the unpin step blocks it. It unpins only listed CIDs that no
     * token which really lives really protects; one that nothing holds back unpins every orphan which
     * readable runs have kept seeing for the grace period; a blocked and a dry run leave pins and file
     * alone; and its record extends the history.
     */
    method RunIpfsGC(input: RunInput, ghost reality: Reality) returns (result: Option<GcResult>)
      requires Valid() && input.eventBatchSize > 0 && Agrees(input, reality)
      modifies this
      ensures Valid()
      ensures result.None? <==> input.contracts == []
      ensures result.None? ==> pins == old(pins) && file == old(file) && runs == old(runs)
      ensures result.Some? ==> |runs| == |old(runs)| + 1 && runs[..|old(runs)|] == old(runs)
      ensures result.Some? ==> Recorded(runs[|old(runs)|], input, result.value, old(pins), old(file))
      ensures result.Some? ==> UnpinsOverdue(old(runs), input, runs[|old(runs)|])
      ensures result.Some? ==> forall c :: c in runs[|old(runs)|].unpinned ==>
                input.listing.Some? && c in input.listing.value && !Protected(reality.store, reality.contracts, c)
    {
      if input.contracts == [] {
        return None;
      }
      var orphans, errors, liveTokens := FindOrphans(input, reality);
      if input.listing.None? {
        Record(Run(input.scope, input.now, input.graceMs, input.dryRun, true, input.fileReadable, [], [], false));
        return Some(GcResult(input.dryRun, !input.dryRun, liveTokens, 0, 0, 0, 0, errors));
      }
      var priorErrors := errors != [];
      var eligible, unpinned, committed, sweepErrors := Sweep(input, orphans, priorErrors);
      ghost var run := Run(input.scope, input.now, input.graceMs, input.dryRun, priorErrors, input.fileReadable, orphans, unpinned, committed);
      SweepUnpinsOverdue(runs, files, input, run);
      Record(run);
      return Some(GcResult(input.dryRun, !input.dryRun && priorErrors, liveTokens, |input.listing.value|, |orphans|, eligible, |unpinned|, errors + sweepErrors));
    }

    /** Over the collector's whole life: whatever was unpinned had been an orphan for the grace period, without a break. */
    lemma EveryUnpinWasOverdue(k: nat, c: Cid)
      requires Valid() && k < |runs| && c in runs[k].unpinned && runs[k].graceMs > 0
      ensures exists i: nat :: SeenSince(runs, i, k, runs[k].scope, c) && runs[k].now - runs[i].now >= runs[k].graceMs
    {
      UnpinnedOnlyAfterGrace(runs, files, k, c);
    }

    /** Appends a run to the ghost history. */
    ghost method Record(run: Run)
      requires History(runs, files)
      requires Allowed(files[|runs|], run) && file == FileAfter(files[|runs|], run)
      modifies this`runs, this`files
      ensures Valid() && runs == old(runs) + [run]
      ensures runs[|old(runs)|] == run && runs[..|old(runs)|] == old(runs)
    {
      runs, files := runs + [run], files + [file];
    }
  }
}
