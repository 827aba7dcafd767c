/** The chat proxy's sliding window, shared by all sessions of a wallet. */
module ChatWindow {
  type Wallet = string

  const MAX_MSG_PER_MINUTE := 10
  const RATE_LIMIT_WINDOW_MS := 60000

  type Timestamps = map<Wallet, seq<int>>

  /** The timestamps still inside the window. */
  function Recent(times: seq<int>, now: int): (r: seq<int>)
    ensures |r| <= |times|
  {
    if times == [] then [] else
    var last := times[|times| - 1];
    Recent(times[..|times| - 1], now) + (if now - last < RATE_LIMIT_WINDOW_MS then [last] else [])
  }

  function Stored(store: Timestamps, w: Wallet): seq<int> {
    if w in store then store[w] else []
  }

  predicate Allows(store: Timestamps, w: Wallet, now: int) {
    |Recent(Stored(store, w), now)| < MAX_MSG_PER_MINUTE
  }

  /** A refused message leaves the store untouched. */
  function After(store: Timestamps, w: Wallet, now: int): Timestamps {
    if Allows(store, w, now) then store[w := Recent(Stored(store, w), now) + [now]] else store
  }

  /** One message attempt, from any session of the wallet. */
  datatype Attempt = Attempt(now: int, wallet: Wallet)

  function Run(h: seq<Attempt>): Timestamps {
    if h == [] then map[] else After(Run(h[..|h| - 1]), h[|h| - 1].wallet, h[|h| - 1].now)
  }

  ghost predicate Monotone(h: seq<Attempt>) {
    forall i, j :: 0 <= i < j < |h| ==> h[i].now <= h[j].now
  }

  /** The times of a wallet's accepted messages, over the whole run. */
  function Accepted(h: seq<Attempt>, w: Wallet): seq<int> {
    if h == [] then [] else
    var before := h[..|h| - 1];
    var a := h[|h| - 1];
    Accepted(before, w) + (if a.wallet == w && Allows(Run(before), w, a.now) then [a.now] else [])
  }

  ghost predicate Sorted(times: seq<int>) {
    forall i, j :: 0 <= i < j < |times| ==> times[i] <= times[j]
  }

  lemma RecentOfAppend(times: seq<int>, t: int, now: int)
    ensures Recent(times + [t], now) == if now - t < RATE_LIMIT_WINDOW_MS then Recent(times, now) + [t] else Recent(times, now)
  {
    assert (times + [t])[..|times|] == times;
  }

  /** What has left the window stays out of it. */
  lemma {:induction false} RecentTwice(times: seq<int>, earlier: int, now: int)
    requires earlier <= now
    ensures Recent(Recent(times, earlier), now) == Recent(times, now)
  {
    if times != [] {
      var before, last := times[..|times| - 1], times[|times| - 1];
      assert times == before + [last];
      RecentTwice(before, earlier, now);
      RecentOfAppend(before, last, earlier);
      RecentOfAppend(before, last, now);
      RecentOfAppend(Recent(before, earlier), last, now);
    }
  }

  lemma {:induction false} AcceptedIsSorted(h: seq<Attempt>, w: Wallet)
    requires Monotone(h)
    ensures Sorted(Accepted(h, w)) && forall i :: 0 <= i < |Accepted(h, w)| ==> h != [] && Accepted(h, w)[i] <= h[|h| - 1].now
  {
    if h != [] {
      AcceptedIsSorted(h[..|h| - 1], w);
    }
  }

  lemma {:induction false} StoredIsShort(h: seq<Attempt>, w: Wallet)
    ensures |Stored(Run(h), w)| <= MAX_MSG_PER_MINUTE
  {
    if h != [] {
      StoredIsShort(h[..|h| - 1], w);
    }
  }

  /** The pruned list decides as the whole history of accepted messages would. */
  lemma {:induction false} StoredIsWindowOfHistory(h: seq<Attempt>, w: Wallet, now: int)
    requires Monotone(h) && (h != [] ==> h[|h| - 1].now <= now)
    ensures Recent(Stored(Run(h), w), now) == Recent(Accepted(h, w), now)
  {
    if h != [] {
      var before, a := h[..|h| - 1], h[|h| - 1];
      StoredIsWindowOfHistory(before, w, now);
      if a.wallet == w && Allows(Run(before), w, a.now) {
        var stored := Stored(Run(before), w);
        RecentOfAppend(Recent(stored, a.now), a.now, now);
        RecentTwice(stored, a.now, now);
        RecentOfAppend(Accepted(before, w), a.now, now);
      } else {
        assert Accepted(h, w) == Accepted(before, w);
      }
    }
  }

  /** A message is accepted exactly when fewer than ten were accepted in the last minute, over all sessions. */
  lemma AcceptsIffFewerThanTen(h: seq<Attempt>, w: Wallet, now: int)
    requires Monotone(h) && (h != [] ==> h[|h| - 1].now <= now)
    ensures Allows(Run(h), w, now) <==> |Recent(Accepted(h, w), now)| < MAX_MSG_PER_MINUTE
  {
    StoredIsWindowOfHistory(h, w, now);
  }

  /** In time order, the messages from the first recent one on are all recent. */
  lemma {:induction false} RecentFrom(times: seq<int>, i: nat, now: int)
    requires Sorted(times) && i < |times| && now - times[i] < RATE_LIMIT_WINDOW_MS
    ensures |Recent(times, now)| >= |times| - i
  {
    if i < |times| - 1 {
      RecentFrom(times[..|times| - 1], i, now);
    }
  }

  /** Any eleven consecutive accepted messages of a wallet span at least one minute. */
  lemma {:induction false} ElevenSpanAMinute(h: seq<Attempt>, w: Wallet, i: nat)
    requires Monotone(h) && i + MAX_MSG_PER_MINUTE < |Accepted(h, w)|
    ensures Accepted(h, w)[i + MAX_MSG_PER_MINUTE] - Accepted(h, w)[i] >= RATE_LIMIT_WINDOW_MS
  {
    assert h != [];
    var before, a := h[..|h| - 1], h[|h| - 1];
    if i + MAX_MSG_PER_MINUTE < |Accepted(before, w)| {
      ElevenSpanAMinute(before, w, i);
    } else {
      assert Accepted(h, w) == Accepted(before, w) + [a.now] && |Accepted(before, w)| == i + MAX_MSG_PER_MINUTE;
      StoredIsWindowOfHistory(before, w, a.now);
      AcceptedIsSorted(before, w);
      if a.now - Accepted(before, w)[i] < RATE_LIMIT_WINDOW_MS {
        RecentFrom(Accepted(before, w), i, a.now);
      }
    }
  }

  // ---------------------------------------------------------------------------------------
  // The code
  // ---------------------------------------------------------------------------------------

  class MessageWindow {
    var walletMessageTimestamps: Timestamps

    constructor ()
      ensures walletMessageTimestamps == map[]
    {
      walletMessageTimestamps := map[];
    }

    method AllowMessage(address: Wallet, now: int) returns (allowed: bool)
      modifies this
      ensures allowed == Allows(old(walletMessageTimestamps), address, now)
      ensures walletMessageTimestamps == After(old(walletMessageTimestamps), address, now)
    {
      var all := if address in walletMessageTimestamps then walletMessageTimestamps[address] else [];
      var timestamps: seq<int> := [];
      for i := 0 to |all|
        invariant timestamps == Recent(all[..i], now)
      {
        assert all[..i + 1][..i] == all[..i];
        if now - all[i] < RATE_LIMIT_WINDOW_MS {
          timestamps := timestamps + [all[i]];
        }
      }
      assert all[..|all|] == all;
      if |timestamps| >= MAX_MSG_PER_MINUTE {
        return false;
      }
      walletMessageTimestamps := walletMessageTimestamps[address := timestamps + [now]];
      return true;
    }
  }
}
