/** The contract's log, block by block, and the ownership that a one-shot replay of it yields. */
module TransferLog {
  type TokenId = string
  /** Addresses are canonical (lower case). */
  type Address = string

  datatype Event = Transfer(tokenId: TokenId, to: Address) | EditorSetChanged(tokenId: TokenId)
  datatype Log = Log(blockNumber: int, event: Event)

  /** The immutable events of every block, in log order. */
  type Chain = int -> seq<Event>
  type Ownership = map<TokenId, Address>

  function AtBlock(block: int, events: seq<Event>): seq<Log> {
    seq(|events|, i requires 0 <= i < |events| => Log(block, events[i]))
  }

  /** What eth_getLogs returns for the blocks from..last, both included. */
  function Logs(chain: Chain, from: int, last: int): (logs: seq<Log>)
    decreases last - from + 1
    ensures forall log :: log in logs ==> from <= log.blockNumber <= last
  {
    if from > last then [] else Logs(chain, from, last - 1) + AtBlock(last, chain(last))
  }

  function Apply(ownership: Ownership, logs: seq<Log>): Ownership {
    if logs == [] then ownership else
    var before := Apply(ownership, logs[..|logs| - 1]);
    match logs[|logs| - 1].event
    case Transfer(t, to) => before[t := to]
    case EditorSetChanged(_) => before
  }

  /** The ownership after replaying every block from `deployment` to `block` at once. */
  function Replay(chain: Chain, deployment: int, block: int): Ownership {
    Apply(map[], Logs(chain, deployment, block))
  }

  /** The recipient of the last transfer of a token in `logs`, if there is one. */
  ghost predicate LastTransfer(logs: seq<Log>, t: TokenId, i: int) {
    && 0 <= i < |logs| && logs[i].event.Transfer? && logs[i].event.tokenId == t
    && forall j :: i < j < |logs| ==> !(logs[j].event.Transfer? && logs[j].event.tokenId == t)
  }

  ghost predicate Transferred(logs: seq<Log>, t: TokenId) {
    exists i :: LastTransfer(logs, t, i)
  }

  /** Last writer wins: a token's owner is its last recipient, or what it was before. */
  lemma {:induction false} ApplyIsLastWriter(ownership: Ownership, logs: seq<Log>, t: TokenId)
    ensures t in Apply(ownership, logs) <==> t in ownership || Transferred(logs, t)
    ensures forall i :: LastTransfer(logs, t, i) ==> Apply(ownership, logs)[t] == logs[i].event.to
    ensures !Transferred(logs, t) && t in ownership ==> Apply(ownership, logs)[t] == ownership[t]
  {
    if logs != [] {
      var n := |logs| - 1;
      ApplyIsLastWriter(ownership, logs[..n], t);
      if logs[n].event.Transfer? && logs[n].event.tokenId == t {
        assert LastTransfer(logs, t, n);
      } else {
        forall i ensures LastTransfer(logs, t, i) <==> LastTransfer(logs[..n], t, i) {
        }
      }
    }
  }

  /** The one-shot replay gives each token the recipient of its last transfer, and no other token an owner. */
  lemma ReplayGivesLastRecipient(chain: Chain, deployment: int, block: int, t: TokenId)
    ensures
      var logs := Logs(chain, deployment, block);
      var owners := Replay(chain, deployment, block);
      && (t in owners <==> exists i :: LastTransfer(logs, t, i))
      && (forall i :: LastTransfer(logs, t, i) ==> owners[t] == logs[i].event.to)
  {
    var nothing: Ownership := map[];
    ApplyIsLastWriter(nothing, Logs(chain, deployment, block), t);
    assert Replay(chain, deployment, block) == Apply(nothing, Logs(chain, deployment, block));
  }

  lemma {:induction false} ApplyInTwoSteps(ownership: Ownership, a: seq<Log>, b: seq<Log>)
    ensures Apply(ownership, a + b) == Apply(Apply(ownership, a), b)
  {
    if b == [] {
      assert a + b == a;
    } else {
      assert (a + b)[..|a + b| - 1] == a + b[..|b| - 1];
      ApplyInTwoSteps(ownership, a, b[..|b| - 1]);
    }
  }

  /** Replaying logs that were just applied changes nothing. */
  lemma ApplyAgain(ownership: Ownership, logs: seq<Log>)
    ensures Apply(Apply(ownership, logs), logs) == Apply(ownership, logs)
  {
    var once := Apply(ownership, logs);
    var twice := Apply(once, logs);
    forall t ensures t in twice <==> t in once
             ensures t in once ==> twice[t] == once[t]
    {
      ApplyIsLastWriter(ownership, logs, t);
      ApplyIsLastWriter(once, logs, t);
      if Transferred(logs, t) {
        var i :| LastTransfer(logs, t, i);
        assert twice[t] == logs[i].event.to == once[t];
      }
    }
  }

  lemma {:induction false} LogsSplit(chain: Chain, from: int, mid: int, last: int)
    requires from <= mid + 1 && mid <= last
    ensures Logs(chain, from, last) == Logs(chain, from, mid) + Logs(chain, mid + 1, last)
    decreases last - mid
  {
    if mid < last {
      LogsSplit(chain, from, mid, last - 1);
    }
  }

  /** A replay up to `block`, continued with the blocks after it, is the longer replay. */
  lemma ReplayIsReadyForNext(chain: Chain, deployment: int, block: int, last: int)
    requires deployment <= block + 1 <= last
    ensures Apply(Replay(chain, deployment, block), Logs(chain, block + 1, last)) == Replay(chain, deployment, last)
  {
    LogsSplit(chain, deployment, block, last);
    ApplyInTwoSteps(map[], Logs(chain, deployment, block), Logs(chain, block + 1, last));
  }

  /** So it is when its last block is read again: re-reading the boundary block is harmless. */
  lemma ReplayIsReadyForBoundary(chain: Chain, deployment: int, block: int, last: int)
    requires deployment <= block <= last
    ensures Apply(Replay(chain, deployment, block), Logs(chain, block, last)) == Replay(chain, deployment, last)
  {
    var owners := Replay(chain, deployment, block);
    var boundary := Logs(chain, block, block);
    assert Apply(owners, boundary) == owners by {
      LogsSplit(chain, deployment, block - 1, block);
      ApplyInTwoSteps(map[], Logs(chain, deployment, block - 1), boundary);
      ApplyAgain(Replay(chain, deployment, block - 1), boundary);
    }
    LogsSplit(chain, block, block, last);
    ApplyInTwoSteps(owners, boundary, Logs(chain, block + 1, last));
    if last > block {
      ReplayIsReadyForNext(chain, deployment, block, last);
    }
  }

  /** A chain whose tip is still the deployment block is taken as read: that is a replay exactly when the block moves no token. */
  lemma UnreadDeploymentBlockIff(chain: Chain, deployment: int)
    ensures Replay(chain, deployment, deployment) == map[] <==> forall event :: event in chain(deployment) ==> !event.Transfer?
  {
    var logs := Logs(chain, deployment, deployment);
    var events := chain(deployment);
    var nothing: Ownership := map[];
    assert Logs(chain, deployment, deployment - 1) == [];
    assert logs == AtBlock(deployment, events);
    forall i | 0 <= i < |events| && events[i].Transfer? ensures events[i].tokenId in Replay(chain, deployment, deployment) {
      assert logs[i].event == events[i];
      TransferIsLast(logs, events[i].tokenId, i);
      ApplyIsLastWriter(nothing, logs, events[i].tokenId);
    }
    if forall event :: event in events ==> !event.Transfer? {
      NoTransferChangesNothing(nothing, logs);
    }
  }

  /** A token that is transferred somewhere in `logs` has a last transfer. */
  lemma {:induction false} TransferIsLast(logs: seq<Log>, t: TokenId, i: nat)
    requires i < |logs| && logs[i].event.Transfer? && logs[i].event.tokenId == t
    ensures Transferred(logs, t)
    decreases |logs| - i
  {
    if j :| i < j < |logs| && logs[j].event.Transfer? && logs[j].event.tokenId == t {
      TransferIsLast(logs, t, j);
    } else {
      assert LastTransfer(logs, t, i);
    }
  }

  lemma {:induction false} NoTransferChangesNothing(ownership: Ownership, logs: seq<Log>)
    requires forall log :: log in logs ==> !log.event.Transfer?
    ensures Apply(ownership, logs) == ownership
  {
    if logs != [] {
      assert logs[|logs| - 1] in logs;
      NoTransferChangesNothing(ownership, logs[..|logs| - 1]);
    }
  }
}
