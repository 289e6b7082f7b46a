/**
 What the Circle adapter reads back from the provider (packages/circle-adapter/src/circle-wallet-provider.ts):
 the paginated recovery listing, the exact match of a recovered transfer, and polling to a verdict.
 */
module CircleProvider {
  import opened Wrappers
  import opened Text
  import opened Records
  import Decimal

  const MAX_RECOVERY_PAGES := 100
  const RECOVERY_PAGE_SIZE := 50
  const BLOCKCHAIN := "ARC-TESTNET"

  datatype ReturnedTransaction = ReturnedTransaction(
    id: Option<string>, refId: Option<string>, transactionType: Option<string>, operation: Option<string>,
    blockchain: Option<string>, walletId: Option<string>, destinationAddress: Option<string>,
    amounts: Option<seq<string>>, contractAddress: Option<string>, tokenAddress: Option<string>)

  // ----- paginated recovery -----

  datatype Response = Malformed | Page(transactions: seq<ReturnedTransaction>)

  /** The provider's answer to the n-th call, made with a cursor or without one. */
  type Server = (nat, Option<string>) -> Response

  /** What the loop collects from call `page` on; None is the source's exception. */
  function Collected(server: Server, page: nat, cursor: Option<string>, seen: set<string>): Option<seq<ReturnedTransaction>>
    decreases MAX_RECOVERY_PAGES - page
  {
    if page >= MAX_RECOVERY_PAGES then None else
      match server(page, cursor)
      case Malformed => None
      case Page(ts) =>
        if |ts| > RECOVERY_PAGE_SIZE then None
        else if |ts| < RECOVERY_PAGE_SIZE then Some(ts)
        else
          var next := ts[|ts| - 1].id;
          if next.None? || !IsUuid(next.value) || next.value in seen then None
          else Preceded(ts, Collected(server, page + 1, next, seen + {next.value}))
  }

  function Preceded<T>(front: seq<T>, rest: Option<seq<T>>): Option<seq<T>> {
    match rest
    case None => None
    case Some(ts) => Some(front + ts)
  }

  lemma {:induction false} PrecededTwice<T>(front: seq<T>, middle: seq<T>, rest: Option<seq<T>>)
    ensures Preceded(front, Preceded(middle, rest)) == Preceded(front + middle, rest)
  {
    if rest.Some? { assert front + (middle + rest.value) == (front + middle) + rest.value; }
  }

  method ListAllRecoveryTransactions(server: Server) returns (r: Option<seq<ReturnedTransaction>>, calls: nat)
    ensures calls <= 100
    ensures r == Collected(server, 0, None, {})
  {
    var transactions: seq<ReturnedTransaction> := [];
    var seenCursors: set<string> := {};
    var pageAfter: Option<string> := None;
    calls := 0;
    assert Collected(server, 0, None, {}).Some? ==> [] + Collected(server, 0, None, {}).value == Collected(server, 0, None, {}).value;
    while calls < MAX_RECOVERY_PAGES
      invariant calls <= MAX_RECOVERY_PAGES
      invariant Collected(server, 0, None, {}) == Preceded(transactions, Collected(server, calls, pageAfter, seenCursors))
    {
      ghost var before := transactions;
      var response := server(calls, pageAfter);
      calls := calls + 1;
      if response.Malformed? || |response.transactions| > RECOVERY_PAGE_SIZE {
        return None, calls;
      }
      transactions := transactions + response.transactions;
      if |response.transactions| < RECOVERY_PAGE_SIZE {
        return Some(transactions), calls;
      }
      var nextCursor := response.transactions[|response.transactions| - 1].id;
      if nextCursor.None? || !IsUuid(nextCursor.value) || nextCursor.value in seenCursors {
        return None, calls;
      }
      PrecededTwice(before, response.transactions, Collected(server, calls, nextCursor, seenCursors + {nextCursor.value}));
      seenCursors := seenCursors + {nextCursor.value};
      pageAfter := nextCursor;
    }
    return None, calls;
  }

  function PageOf(all: seq<ReturnedTransaction>, start: nat): seq<ReturnedTransaction>
    requires start <= |all|
  {
    if start + RECOVERY_PAGE_SIZE <= |all| then all[start..start + RECOVERY_PAGE_SIZE] else all[start..]
  }

  /** A cursor server over a fixed list: the first call answers with the first page, later ones with the page that follows their cursor. */
  ghost predicate ServesList(server: Server, all: seq<ReturnedTransaction>) {
    && server(0, None) == Page(PageOf(all, 0))
    && (forall n: nat, i: nat :: 0 < n && i < |all| ==> server(n, all[i].id) == Page(PageOf(all, i + 1)))
  }

  /** A cursor server whose list, the newest transactions first, may grow between the calls: the n-th call sees `lists(n)`. */
  ghost predicate ServesGrowing(server: Server, lists: nat -> seq<ReturnedTransaction>) {
    && (forall n: nat :: EndsWith(lists(n), lists(0)))
    && server(0, None) == Page(PageOf(lists(0), 0))
    && (forall n: nat, i: nat :: 0 < n && i < |lists(n)| ==> server(n, lists(n)[i].id) == Page(PageOf(lists(n), i + 1)))
  }

  predicate EndsWith<T(==)>(s: seq<T>, tail: seq<T>) {
    |tail| <= |s| && s[|s| - |tail|..] == tail
  }

  lemma {:induction false} PageOfTail(all: seq<ReturnedTransaction>, tail: seq<ReturnedTransaction>, i: nat)
    requires EndsWith(all, tail) && i < |tail|
    ensures all[|all| - |tail| + i] == tail[i] && PageOf(all, |all| - |tail| + i + 1) == PageOf(tail, i + 1)
  {
    var start := |all| - |tail|;
    assert all[start..][i] == tail[i];
    assert all[start + i + 1..] == tail[i + 1..];
    if i + 1 + RECOVERY_PAGE_SIZE <= |tail| {
      assert all[start + i + 1..start + i + 1 + RECOVERY_PAGE_SIZE] == tail[i + 1..i + 1 + RECOVERY_PAGE_SIZE];
    }
  }

  /** Transactions that are added while the pages are read do not disturb the pages: they answer as for the list of the first call. */
  lemma {:induction false} GrowthIsInvisible(server: Server, lists: nat -> seq<ReturnedTransaction>)
    requires ServesGrowing(server, lists)
    ensures ServesList(server, lists(0))
  {
    var all := lists(0);
    forall n: nat, i: nat | 0 < n && i < |all| ensures server(n, all[i].id) == Page(PageOf(all, i + 1)) {
      PageOfTail(lists(n), all, i);
      var k: nat := |lists(n)| - |all| + i;
      assert server(n, lists(n)[k].id) == Page(PageOf(lists(n), k + 1));
    }
  }

  predicate DistinctUuids(all: seq<ReturnedTransaction>) {
    && (forall i :: 0 <= i < |all| ==> all[i].id.Some? && IsUuid(all[i].id.value))
    && (forall i, j :: 0 <= i < j < |all| ==> all[i].id != all[j].id)
  }

  /** The answer to a call made after page `n` is the next page. */
  lemma {:induction false} NextPage(server: Server, all: seq<ReturnedTransaction>, n: nat, cursor: Option<string>)
    requires 50 * n <= |all| && ServesList(server, all)
    requires cursor == CursorAt(all, n)
    ensures server(n, cursor) == Page(PageOf(all, 50 * n))
  {
    if n > 0 {
      var i: nat := 50 * n - 1;
      assert server(n, all[i].id) == Page(PageOf(all, i + 1));
    }
  }

  /** One iteration on a full page: take it and go on after its last id. */
  lemma {:induction false} CollectedStep(server: Server, page: nat, cursor: Option<string>, seen: set<string>, ts: seq<ReturnedTransaction>)
    requires page < 100 && server(page, cursor) == Page(ts)
    ensures |ts| < 50 ==> Collected(server, page, cursor, seen) == Some(ts)
    ensures |ts| == 50 && ts[49].id.Some? && IsUuid(ts[49].id.value) && ts[49].id.value !in seen
            ==> Collected(server, page, cursor, seen) == Preceded(ts, Collected(server, page + 1, ts[49].id, seen + {ts[49].id.value}))
  {
  }

  predicate Unseen(all: seq<ReturnedTransaction>, start: nat, seen: set<string>) {
    forall i :: start <= i < |all| && all[i].id.Some? ==> all[i].id.value !in seen
  }

  lemma {:induction false} LastIdFresh(all: seq<ReturnedTransaction>, start: nat, seen: set<string>)
    requires DistinctUuids(all) && start + 50 <= |all| && Unseen(all, start, seen)
    ensures var last := all[start + 49].id;
            last.Some? && IsUuid(last.value) && last.value !in seen && Unseen(all, start + 50, seen + {last.value})
  {
    var last := all[start + 49].id;
    forall i | start + 50 <= i < |all| && all[i].id.Some? ensures all[i].id.value !in seen + {last.value} {
      assert all[start + 49].id != all[i].id;
    }
  }

  /** From the start of page `n` the loop collects everything that is left, if that fits in the remaining calls. */
  predicate CollectsRest(server: Server, all: seq<ReturnedTransaction>, n: nat, cursor: Option<string>, seen: set<string>)
    requires 50 * n <= |all|
  {
    Collected(server, n, cursor, seen) == if |all| <= 4999 then Some(all[50 * n..]) else None
  }

  lemma {:induction false} ShortPage(server: Server, all: seq<ReturnedTransaction>, n: nat, cursor: Option<string>, seen: set<string>)
    requires n < 100 && 50 * n <= |all| < 50 * n + 50 && server(n, cursor) == Page(all[50 * n..])
    ensures CollectsRest(server, all, n, cursor, seen)
  {
    CollectedStep(server, n, cursor, seen, all[50 * n..]);
  }

  lemma {:induction false} FullPage(server: Server, all: seq<ReturnedTransaction>, n: nat, cursor: Option<string>, seen: set<string>)
    requires n < 100 && 50 * n + 50 <= |all| && server(n, cursor) == Page(all[50 * n..50 * n + 50])
    requires var last := all[50 * n + 49].id;
             last.Some? && IsUuid(last.value) && last.value !in seen
    requires CollectsRest(server, all, n + 1, CursorAt(all, n + 1), seen + {all[50 * n + 49].id.value})
    ensures CollectsRest(server, all, n, cursor, seen)
  {
    var ts := all[50 * n..50 * n + 50];
    assert ts[49] == all[50 * n + 49];
    CollectedStep(server, n, cursor, seen, ts);
    assert ts + all[50 * (n + 1)..] == all[50 * n..];
  }

  /** The cursor a call for page `n` carries. */
  function CursorAt(all: seq<ReturnedTransaction>, n: nat): Option<string>
    requires 50 * n <= |all|
  {
    if n == 0 then None else all[50 * n - 1].id
  }

  lemma {:induction false} LastPage(server: Server, all: seq<ReturnedTransaction>, n: nat, seen: set<string>)
    requires n < 100 && 50 * n <= |all| < 50 * n + 50 && ServesList(server, all)
    ensures CollectsRest(server, all, n, CursorAt(all, n), seen)
  {
    NextPage(server, all, n, CursorAt(all, n));
    ShortPage(server, all, n, CursorAt(all, n), seen);
  }

  lemma {:induction false} PageThenRest(server: Server, all: seq<ReturnedTransaction>, n: nat, seen: set<string>)
    requires n < 100 && 50 * n + 50 <= |all| && ServesList(server, all) && DistinctUuids(all) && Unseen(all, 50 * n, seen)
    requires CollectsRest(server, all, n + 1, CursorAt(all, n + 1), seen + {all[50 * n + 49].id.value})
    ensures CollectsRest(server, all, n, CursorAt(all, n), seen)
  {
    NextPage(server, all, n, CursorAt(all, n));
    LastIdFresh(all, 50 * n, seen);
    FullPage(server, all, n, CursorAt(all, n), seen);
  }

  lemma {:induction false} CollectedFrom(server: Server, all: seq<ReturnedTransaction>, n: nat, seen: set<string>)
    requires n <= 100 && 50 * n <= |all| && ServesList(server, all) && DistinctUuids(all) && Unseen(all, 50 * n, seen)
    ensures CollectsRest(server, all, n, CursorAt(all, n), seen)
    decreases 100 - n
  {
    if n < 100 {
      if 50 * n + 50 <= |all| {
        LastIdFresh(all, 50 * n, seen);
        CollectedFrom(server, all, n + 1, seen + {all[50 * n + 49].id.value});
        PageThenRest(server, all, n, seen);
      } else {
        LastPage(server, all, n, seen);
      }
    }
  }

  /** Recovery returns the whole list when it has at most 4999 entries and throws otherwise: it never returns a truncated one. */
  lemma {:induction false} ListingIsComplete(server: Server, all: seq<ReturnedTransaction>)
    requires ServesList(server, all) && DistinctUuids(all)
    ensures Collected(server, 0, None, {}) == if |all| <= 4999 then Some(all) else None
  {
    CollectedFrom(server, all, 0, {});
    assert all[0..] == all;
  }

  // ----- matching a recovered transfer -----

  predicate OptionalToken(token: Option<string>, config: Config) {
    token.None? || SameUpToCase(token.value, config.usdcTokenAddress)
  }

  predicate MatchesRecoveredTransfer(i: Intent, t: ReturnedTransaction, config: Config) {
    && t.refId == Some(i.idempotencyKey)
    && t.transactionType == Some("OUTBOUND")
    && t.operation == Some("TRANSFER")
    && t.walletId == Some(config.sourceWalletId)
    && t.destinationAddress.Some? && SameUpToCase(t.destinationAddress.value, i.destinationAddress)
    && t.amounts == Some([Decimal.AtomicToDecimal(i.amountAtomic)])
    && t.blockchain == Some(BLOCKCHAIN)
    && OptionalToken(t.contractAddress, config)
    && OptionalToken(t.tokenAddress, config)
    && t.id.Some? && IsUuid(t.id.value)
  }

  datatype Recovery = Found(operationId: string) | NotFound | Ambiguous

  function WithRef(ts: seq<ReturnedTransaction>, key: string): seq<ReturnedTransaction> {
    if ts == [] then [] else (if ts[0].refId == Some(key) then [ts[0]] else []) + WithRef(ts[1..], key)
  }

  function ExactMatches(ts: seq<ReturnedTransaction>, i: Intent, config: Config): seq<ReturnedTransaction> {
    if ts == [] then [] else (if MatchesRecoveredTransfer(i, ts[0], config) then [ts[0]] else []) + ExactMatches(ts[1..], i, config)
  }

  /** Looks the exact intent up among the listed transactions. */
  function Recover(i: Intent, listed: seq<ReturnedTransaction>, config: Config): Recovery {
    var same := WithRef(listed, i.idempotencyKey);
    var exact := ExactMatches(same, i, config);
    if |same| != |exact| || |exact| > 1 then Ambiguous
    else if |exact| == 1 then
      if exact[0].id.Some? && exact[0].id.value != "" then Found(exact[0].id.value) else Ambiguous
    else NotFound
  }

  lemma {:induction false} WithRefIs(ts: seq<ReturnedTransaction>, key: string, at: Option<nat>)
    requires forall i :: 0 <= i < |ts| && ts[i].refId == Some(key) ==> at == Some(i)
    requires at.Some? ==> at.value < |ts| && ts[at.value].refId == Some(key)
    ensures WithRef(ts, key) == if at.None? then [] else [ts[at.value]]
  {
    if ts != [] {
      if at == Some(0) {
        WithRefIs(ts[1..], key, None);
      } else {
        WithRefIs(ts[1..], key, if at.None? then None else Some(at.value - 1));
      }
    }
  }

  /** When at most one listed transaction carries the key and it is the exact transfer, recovery is never ambiguous. */
  lemma {:induction false} RecoverFindsTheOne(i: Intent, listed: seq<ReturnedTransaction>, config: Config, at: Option<nat>)
    requires forall k :: 0 <= k < |listed| && listed[k].refId == Some(i.idempotencyKey) ==> at == Some(k)
    requires at.Some? ==> at.value < |listed| && MatchesRecoveredTransfer(i, listed[at.value], config)
    ensures Recover(i, listed, config) == if at.None? then NotFound else Found(listed[at.value].id.value)
  {
    WithRefIs(listed, i.idempotencyKey, at);
    if at.Some? {
      ExactOfOne(listed[at.value], i, config);
    }
  }

  lemma {:induction false} ExactOfOne(t: ReturnedTransaction, i: Intent, config: Config)
    ensures ExactMatches([t], i, config) == if MatchesRecoveredTransfer(i, t, config) then [t] else []
  {
    assert [t][1..] == [];
  }

  lemma {:induction false} WithRefIn(ts: seq<ReturnedTransaction>, key: string)
    ensures forall t :: t in WithRef(ts, key) ==> t in ts && t.refId == Some(key)
  {
    if ts != [] { WithRefIn(ts[1..], key); }
  }

  lemma {:induction false} ExactMatchesIn(ts: seq<ReturnedTransaction>, i: Intent, config: Config)
    ensures forall t :: t in ExactMatches(ts, i, config) ==> t in ts && MatchesRecoveredTransfer(i, t, config)
  {
    if ts != [] { ExactMatchesIn(ts[1..], i, config); }
  }

  /** Whatever the provider lists, a recovered id belongs to a listed transaction that is the exact approved transfer. */
  lemma {:induction false} RecoveredIsListed(i: Intent, listed: seq<ReturnedTransaction>, config: Config)
    requires Recover(i, listed, config).Found?
    ensures exists t :: t in listed && MatchesRecoveredTransfer(i, t, config) && t.id == Some(Recover(i, listed, config).operationId)
  {
    var same := WithRef(listed, i.idempotencyKey);
    WithRefIn(listed, i.idempotencyKey);
    ExactMatchesIn(same, i, config);
    assert ExactMatches(same, i, config)[0] in ExactMatches(same, i, config);
  }

  // ----- polling -----

  datatype Polled = Polled(
    state: Option<string>, txHash: Option<string>, blockHeight: Option<int>, blockHash: Option<string>,
    transaction: ReturnedTransaction)

  datatype Seen = Seen(
    state: string, txHash: Option<string>, blockNumber: Option<nat>, blockHash: Option<string>,
    returned: Option<ReturnedTransaction>)

  const NOTHING_SEEN := Seen("", None, None, None, None)

  predicate IsTerminal(state: string) {
    state in {"COMPLETE", "FAILED", "CANCELLED", "DENIED", "STUCK"}
  }

  function VerifyReturnedTransaction(i: Intent, t: ReturnedTransaction, config: Config): Revalidation {
    if t.blockchain != Some(BLOCKCHAIN) then Refused(NetworkMismatch)
    else if t.walletId != Some(config.sourceWalletId) then Refused(WalletMismatch)
    else if t.destinationAddress.None? || !SameUpToCase(t.destinationAddress.value, i.destinationAddress) then Refused(WalletMismatch)
    else if t.amounts != Some([Decimal.AtomicToDecimal(i.amountAtomic)]) then Refused(AmountMismatch)
    else if t.contractAddress.None? || !SameUpToCase(t.contractAddress.value, config.usdcTokenAddress) then Refused(TokenMismatch)
    else Ok
  }

  function ValidHash(h: Option<string>, otherwise: Option<string>): Option<string> {
    if h.Some? && IsEvmHash(h.value) then h else otherwise
  }

  function Observe(seen: Seen, polled: Option<Polled>): Seen {
    match polled
    case None => seen
    case Some(p) =>
      Seen(if p.state.Some? then p.state.value else seen.state,
           ValidHash(p.txHash, seen.txHash),
           if p.blockHeight.Some? && p.blockHeight.value > 0 then Some(p.blockHeight.value) else seen.blockNumber,
           ValidHash(p.blockHash, seen.blockHash),
           Some(p.transaction))
  }

  predicate FullyConfirmed(seen: Seen) {
    seen.state == "COMPLETE" && seen.txHash.Some? && seen.blockNumber.Some? && seen.blockHash.Some?
  }

  function ExplorerUrl(txHash: Option<string>): Option<string> {
    if txHash.None? then None else Some("https://testnet.arcscan.app/tx/" + txHash.value)
  }

  /** The result the loop returns on what it has seen so far, or None to poll again. */
  function Verdict(i: Intent, operationId: string, config: Config, seen: Seen, now: int): Option<TransferResult> {
    if FullyConfirmed(seen) then
      if seen.returned.Some? && VerifyReturnedTransaction(i, seen.returned.value, config) != Ok then
        Some(FailureResult(i, VerifyReturnedTransaction(i, seen.returned.value, config).code, now))
      else
        Some(TransferResult(None, None, Confirmed, None, Some(operationId), seen.txHash, seen.blockNumber, seen.blockHash,
                            ExplorerUrl(seen.txHash), Some(now)))
    else if IsTerminal(seen.state) && seen.state != "COMPLETE" then
      Some(TransferResult(None, None, Failed, None, Some(operationId), seen.txHash, None, None, ExplorerUrl(seen.txHash), Some(now)))
    else None
  }

  function StillSubmitted(operationId: string, seen: Seen, now: int): TransferResult {
    TransferResult(None, None, Submitted, Some(if seen.state == "COMPLETE" then ConfirmationIncomplete else PollingTimeout),
                   Some(operationId), seen.txHash, None, None, ExplorerUrl(seen.txHash), Some(now))
  }

  function PollOutcome(i: Intent, operationId: string, config: Config, seen: Seen, polls: seq<Option<Polled>>, now: int): TransferResult
    decreases |polls|
  {
    if polls == [] then StillSubmitted(operationId, seen, now) else
      var next := Observe(seen, polls[0]);
      match Verdict(i, operationId, config, next, now)
      case Some(r) => r
      case None => PollOutcome(i, operationId, config, next, polls[1..], now)
  }

  method PollTransfer(i: Intent, operationId: string, config: Config, answers: seq<Option<Polled>>, now: int) returns (r: TransferResult)
    ensures r == PollOutcome(i, operationId, config, NOTHING_SEEN, answers, now)
  {
    var state, txHash, blockNumber: Option<nat>, blockHash, returned := "", None, None, None, None;
    var polls := 0;
    while polls < |answers|
      invariant 0 <= polls <= |answers|
      invariant PollOutcome(i, operationId, config, NOTHING_SEEN, answers, now)
             == PollOutcome(i, operationId, config, Seen(state, txHash, blockNumber, blockHash, returned), answers[polls..], now)
    {
      var polled := answers[polls];
      if polled.Some? {
        var p := polled.value;
        returned := Some(p.transaction);
        if p.state.Some? { state := p.state.value; }
        if p.txHash.Some? && IsEvmHash(p.txHash.value) { txHash := p.txHash; }
        if p.blockHeight.Some? && p.blockHeight.value > 0 { blockNumber := Some(p.blockHeight.value); }
        if p.blockHash.Some? && IsEvmHash(p.blockHash.value) { blockHash := p.blockHash; }
      }
      var verdict := Verdict(i, operationId, config, Seen(state, txHash, blockNumber, blockHash, returned), now);
      if verdict.Some? {
        return verdict.value;
      }
      polls := polls + 1;
    }
    r := StillSubmitted(operationId, Seen(state, txHash, blockNumber, blockHash, returned), now);
  }

  function SeenAfter(seen: Seen, polls: seq<Option<Polled>>): Seen
    decreases |polls|
  {
    if polls == [] then seen else SeenAfter(Observe(seen, polls[0]), polls[1..])
  }

  /** A transaction was returned before any evidence was collected. */
  predicate Backed(seen: Seen) {
    seen.returned.None? ==> seen == NOTHING_SEEN
  }

  /**
   CONFIRMED is reported only for this operation, with complete evidence, when the transaction last returned is
   the exact approved transfer; and no result ever names another operation.
   */
  lemma {:induction false} ConfirmedIsVerified(i: Intent, operationId: string, config: Config, seen: Seen, polls: seq<Option<Polled>>, now: int)
    requires Backed(seen)
    ensures var r := PollOutcome(i, operationId, config, seen, polls, now);
            && (r.providerOperationId.Some? ==> r.providerOperationId == Some(operationId))
            && r.status in {Submitted, Confirmed, Failed}
            && (r.status == Submitted ==> r.providerOperationId == Some(operationId))
            && (r.status == Confirmed ==> exists n :: 0 <= n <= |polls| && VerifiedBy(i, operationId, config, r, SeenAfter(seen, polls[..n])))
    decreases |polls|
  {
    if polls != [] {
      var next := Observe(seen, polls[0]);
      if Verdict(i, operationId, config, next, now).None? {
        ConfirmedIsVerified(i, operationId, config, next, polls[1..], now);
        var r := PollOutcome(i, operationId, config, next, polls[1..], now);
        if r.status == Confirmed {
          var n :| 0 <= n <= |polls[1..]| && VerifiedBy(i, operationId, config, r, SeenAfter(next, polls[1..][..n]));
          assert polls[..n + 1][1..] == polls[1..][..n];
          assert SeenAfter(seen, polls[..n + 1]) == SeenAfter(next, polls[1..][..n]);
        }
      } else {
        assert polls[..1][1..] == [];
        assert SeenAfter(seen, polls[..1]) == next;
      }
    }
  }

  predicate VerifiedBy(i: Intent, operationId: string, config: Config, r: TransferResult, seen: Seen) {
    && FullyConfirmed(seen) && seen.returned.Some?
    && VerifyReturnedTransaction(i, seen.returned.value, config) == Ok
    && r.providerOperationId == Some(operationId)
    && r.transactionHash == seen.txHash && r.blockNumber == seen.blockNumber && r.blockHash == seen.blockHash
    && r.explorerUrl.Some?
  }
}
