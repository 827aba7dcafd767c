/** Sign-In with Ethereum on the server: field checks, freshness, and the used-nonce store. */
module SiweNonces {
  import opened Wrappers

  type Nonce = string

  /** A message as the SIWE parser reads it. `issuedAt` is None when it is not a timestamp. */
  datatype Parsed =
    | Unparsable
    | Fields(domain: string, address: string, version: string, chainId: int, nonce: Nonce, hasIssuedAt: bool, issuedAt: Option<int>)

  datatype Context = Context(
    supportedChainIds: set<int>,
    expectedDomain: string,
    hasEoaAddress: bool,
    messageMaxAgeMs: int,
    nonceTtlMs: int)

  /** The verifier's answer, and whether the owner's key signed instead (None: recovery failed). */
  datatype Signature = VerifierThrew | Checked(valid: bool, ownerSigned: Option<bool>)

  datatype Outcome =
    | Accepted
    | InvalidFormat | MissingFields | InvalidAddress | DomainMismatch | UnsupportedVersion | UnsupportedChain
    | InvalidIssuedAt | FromTheFuture | TooOld | NonceUsed | VerificationFailed | WrongSigner

  type Store = map<Nonce, int>

  predicate HexDigit(c: char) {
    '0' <= c <= '9' || 'a' <= c <= 'f' || 'A' <= c <= 'F'
  }

  predicate WellFormedAddress(a: string) {
    |a| == 42 && a[..2] == "0x" && forall i :: 2 <= i < 42 ==> HexDigit(a[i])
  }

  function StripScheme(domain: string): string {
    if |domain| >= 8 && domain[..8] == "https://" then domain[8..]
    else if |domain| >= 7 && domain[..7] == "http://" then domain[7..]
    else domain
  }

  /** The checks on the message alone, in the order the code makes them. */
  function FieldError(ctx: Context, p: Parsed): Option<Outcome> {
    if p.Unparsable? then Some(InvalidFormat)
    else if p.domain == "" || p.address == "" || p.version == "" || p.chainId == 0 || p.nonce == "" || !p.hasIssuedAt then Some(MissingFields)
    else if !WellFormedAddress(p.address) then Some(InvalidAddress)
    else if ctx.expectedDomain != "" && StripScheme(p.domain) != StripScheme(ctx.expectedDomain) then Some(DomainMismatch)
    else if p.version != "1" then Some(UnsupportedVersion)
    else if p.chainId !in ctx.supportedChainIds then Some(UnsupportedChain)
    else if p.issuedAt.None? then Some(InvalidIssuedAt)
    else None
  }

  predicate Signed(ctx: Context, sig: Signature) {
    sig.Checked? && (sig.valid || (ctx.hasEoaAddress && sig.ownerSigned == Some(true)))
  }

  function Cleaned(used: Store, now: int): Store {
    map n | n in used && used[n] > now :: used[n]
  }

  /** The nonce is stored and has not expired. */
  predicate Live(used: Store, n: Nonce, now: int) {
    n in used && used[n] > now
  }

  function Verify(used: Store, ctx: Context, now: int, p: Parsed, sig: Signature): (Store, Outcome) {
    var error := FieldError(ctx, p);
    if error.Some? then (used, error.value) else
    var age := now - p.issuedAt.value;
    if age < 0 then (used, FromTheFuture)
    else if age > ctx.messageMaxAgeMs then (used, TooOld)
    else
      var live := Cleaned(used, now);
      if p.nonce in live then (live, NonceUsed)
      else if sig.VerifierThrew? then (live, VerificationFailed)
      else if !Signed(ctx, sig) then (live, WrongSigner)
      else (live[p.nonce := now + ctx.nonceTtlMs], Accepted)
  }

  /** The host with or without a scheme. */
  predicate Names(domain: string, host: string) {
    domain == host || domain == "http://" + host || domain == "https://" + host
  }

  lemma StrippedIsTheHost(domain: string)
    ensures Names(domain, StripScheme(domain))
  {
  }

  /**
   * An accepted message names this server's host and one of its chains, is a version 1 message for a
   * well-formed address, is no older than allowed and not from the future, has an unused nonce, and
   * was signed: by the address or, where the request names an owner key, by that key.
   */
  lemma AcceptedMessageIsBound(used: Store, ctx: Context, now: int, p: Parsed, sig: Signature)
    requires Verify(used, ctx, now, p, sig).1 == Accepted
    ensures p.Fields? && p.version == "1" && p.chainId in ctx.supportedChainIds && p.chainId != 0 && WellFormedAddress(p.address)
    ensures ctx.expectedDomain != "" ==> exists host :: Names(p.domain, host) && Names(ctx.expectedDomain, host)
    ensures p.issuedAt.Some? && 0 <= now - p.issuedAt.value <= ctx.messageMaxAgeMs
    ensures p.nonce != "" && !Live(used, p.nonce, now)
    ensures sig.Checked? && (sig.valid || (ctx.hasEoaAddress && sig.ownerSigned == Some(true)))
  {
    StrippedIsTheHost(p.domain);
    StrippedIsTheHost(ctx.expectedDomain);
  }

  // ---------------------------------------------------------------------------------------
  // Runs
  // ---------------------------------------------------------------------------------------

  datatype Call = Call(now: int, message: Parsed, sig: Signature) | CleanUp(now: int)

  function Step(used: Store, ctx: Context, call: Call): (Store, Outcome) {
    match call
    case Call(now, message, sig) => Verify(used, ctx, now, message, sig)
    case CleanUp(now) => (Cleaned(used, now), NonceUsed)
  }

  function Run(ctx: Context, h: seq<Call>): Store {
    if h == [] then map[] else Step(Run(ctx, h[..|h| - 1]), ctx, h[|h| - 1]).0
  }

  ghost predicate Monotone(h: seq<Call>) {
    forall i, j :: 0 <= i < j < |h| ==> h[i].now <= h[j].now
  }

  predicate AcceptedAt(ctx: Context, h: seq<Call>, i: nat)
    requires i < |h|
  {
    h[i].Call? && Step(Run(ctx, h[..i]), ctx, h[i]).1 == Accepted
  }

  lemma NonceSurvivesStep(used: Store, ctx: Context, call: Call, nonce: Nonce, until: int)
    requires nonce in used && used[nonce] >= until
    ensures (nonce in Step(used, ctx, call).0 && Step(used, ctx, call).0[nonce] >= until) || call.now >= until
  {
  }

  /** An accepted nonce stays in the store until its TTL has passed, wherever cleanups fall. */
  lemma {:induction false} NonceStays(ctx: Context, h: seq<Call>, i: nat, k: nat)
    requires Monotone(h) && i < k <= |h| && AcceptedAt(ctx, h, i)
    ensures
      var used := Run(ctx, h[..k]);
      var until := h[i].now + ctx.nonceTtlMs;
      (h[i].message.nonce in used && used[h[i].message.nonce] >= until) || h[k - 1].now >= until
  {
    assert h[..k][..k - 1] == h[..k - 1];
    if k > i + 1 {
      NonceStays(ctx, h, i, k - 1);
      var used := Run(ctx, h[..k - 1]);
      var nonce := h[i].message.nonce;
      if nonce in used && used[nonce] >= h[i].now + ctx.nonceTtlMs {
        NonceSurvivesStep(used, ctx, h[k - 1], nonce, h[i].now + ctx.nonceTtlMs);
      }
    }
  }

  /** Two acceptances of one nonce are at least the nonce TTL apart. */
  lemma SameNonceIsFarApart(ctx: Context, h: seq<Call>, i: nat, j: nat)
    requires Monotone(h) && i < j < |h| && AcceptedAt(ctx, h, i) && AcceptedAt(ctx, h, j)
    requires h[i].message.nonce == h[j].message.nonce
    ensures h[j].now - h[i].now >= ctx.nonceTtlMs
  {
    NonceStays(ctx, h, i, j);
  }

  /** Some run accepts one message twice. */
  ghost predicate ReplayPossible(ctx: Context) {
    exists h: seq<Call>, i: nat, j: nat ::
      Monotone(h) && i < j < |h| && AcceptedAt(ctx, h, i) && AcceptedAt(ctx, h, j) && h[i].message == h[j].message
  }

  lemma MessageIsAcceptedOnce(ctx: Context, h: seq<Call>, i: nat, j: nat)
    requires ctx.messageMaxAgeMs < ctx.nonceTtlMs
    requires Monotone(h) && i < j < |h| && AcceptedAt(ctx, h, i) && AcceptedAt(ctx, h, j)
    ensures h[i].message != h[j].message
  {
    if h[i].message == h[j].message {
      SameNonceIsFarApart(ctx, h, i, j);
    }
  }

  /** A message that passes every field check in a context with at least one non-zero chain. */
  function GoodMessage(ctx: Context, chain: int): Parsed {
    Fields(if ctx.expectedDomain == "" then "d" else ctx.expectedDomain,
           "0x" + seq(40, _ => '0'), "1", chain, "n", true, Some(0))
  }

  /** With a nonce TTL no longer than the message age, the same message is accepted again as its nonce expires. */
  lemma ShortTtlAllowsReplay(ctx: Context, chain: int)
    requires chain in ctx.supportedChainIds && chain != 0
    requires 0 <= ctx.messageMaxAgeMs && ctx.nonceTtlMs <= ctx.messageMaxAgeMs
    ensures ReplayPossible(ctx)
  {
    var m := GoodMessage(ctx, chain);
    assert m.address[..2] == "0x";
    assert FieldError(ctx, m) == None;
    var again := if ctx.nonceTtlMs < 0 then 0 else ctx.nonceTtlMs;
    var h := [Call(0, m, Checked(true, None)), Call(again, m, Checked(true, None))];
    assert h[..0] == [] && h[..1] == [h[0]] && h[..1][..0] == [];
    assert Run(ctx, []) == map[];
    assert AcceptedAt(ctx, h, 0);
    assert Run(ctx, h[..1]) == map["n" := ctx.nonceTtlMs];
    assert Cleaned(Run(ctx, h[..1]), again) == map[];
    assert AcceptedAt(ctx, h, 1);
  }

  /**
   * On a server that supports some chain, replay is impossible exactly when the message age limit is
   * below the nonce TTL, or no message is ever fresh.
   */
  lemma NoReplayIff(ctx: Context, chain: int)
    requires chain in ctx.supportedChainIds && chain != 0
    ensures !ReplayPossible(ctx) <==> ctx.messageMaxAgeMs < ctx.nonceTtlMs || ctx.messageMaxAgeMs < 0
  {
    if ctx.messageMaxAgeMs < ctx.nonceTtlMs {
      forall h: seq<Call>, i: nat, j: nat |
        Monotone(h) && i < j < |h| && AcceptedAt(ctx, h, i) && AcceptedAt(ctx, h, j)
        ensures h[i].message != h[j].message
      {
        MessageIsAcceptedOnce(ctx, h, i, j);
      }
    } else if 0 <= ctx.messageMaxAgeMs {
      ShortTtlAllowsReplay(ctx, chain);
    }
  }

  // ---------------------------------------------------------------------------------------
  // The code
  // ---------------------------------------------------------------------------------------

  class NonceStore {
    var usedNonces: Store

    constructor ()
      ensures usedNonces == map[]
    {
      usedNonces := map[];
    }

    method CleanExpiredNonces(now: int)
      modifies this
      ensures usedNonces == Cleaned(old(usedNonces), now)
    {
      var nonces := usedNonces.Keys;
      while nonces != {}
        invariant nonces <= old(usedNonces).Keys
        invariant usedNonces == map n | n in old(usedNonces) && (n in nonces || old(usedNonces)[n] > now) :: old(usedNonces)[n]
        decreases |nonces|
      {
        var n :| n in nonces;
        nonces := nonces - {n};
        if usedNonces[n] <= now {
          usedNonces := usedNonces - {n};
        }
      }
    }

    method VerifySiwe(ctx: Context, now: int, message: Parsed, sig: Signature) returns (outcome: Outcome)
      modifies this
      ensures (usedNonces, outcome) == Verify(old(usedNonces), ctx, now, message, sig)
      ensures outcome == Accepted <==>
                && FieldError(ctx, message).None? && 0 <= now - message.issuedAt.value <= ctx.messageMaxAgeMs
                && !Live(old(usedNonces), message.nonce, now) && Signed(ctx, sig)
      // Acceptance stores the nonce; no outcome loses a live nonce or stores another one.
      ensures outcome == Accepted ==> message.nonce in usedNonces && usedNonces[message.nonce] == now + ctx.nonceTtlMs
      ensures forall n :: Live(old(usedNonces), n, now) ==> n in usedNonces && usedNonces[n] == old(usedNonces)[n]
      ensures forall n :: n in usedNonces && !(outcome == Accepted && n == message.nonce) ==>
                n in old(usedNonces) && usedNonces[n] == old(usedNonces)[n]
    {
      var error := FieldError(ctx, message);
      if error.Some? {
        return error.value;
      }
      var age := now - message.issuedAt.value;
      if age < 0 {
        return FromTheFuture;
      }
      if age > ctx.messageMaxAgeMs {
        return TooOld;
      }
      CleanExpiredNonces(now);
      if message.nonce in usedNonces {
        return NonceUsed;
      }
      if sig.VerifierThrew? {
        return VerificationFailed;
      }
      var signatureValid := sig.valid;
      if !signatureValid && ctx.hasEoaAddress && sig.ownerSigned == Some(true) {
        signatureValid := true;
      }
      if !signatureValid {
        return WrongSigner;
      }
      usedNonces := usedNonces[message.nonce := now + ctx.nonceTtlMs];
      return Accepted;
    }
  }
}
