/**
 * A reorg run as a whole, the other locked operations of the pool, and what holds over every
 * history of them.
 */
module PoolRuns {
  import opened Basics
  import opened Transactions
  import opened TxSortedMaps
  import opened TxLists
  import opened TxPricedLists
  import opened KnownTxs
  import opened TxNoncers
  import opened PoolState
  import opened TxPools
  import opened PoolPromotes
  import opened PoolDemotes
  import opened PoolReorgs
  import opened PoolTruncates
  import opened PoolQueues

  method LastNonce(items: Items) returns (n: nat)
    requires items != map[]
    ensures n in items && forall k :: k in items ==> k <= n
  {
    n :| n in items;
    var rest := items.Keys - {n};
    while rest != {}
      invariant rest <= items.Keys && n in items && forall k :: k in items && k !in rest ==> k <= n
      decreases rest
    {
      var k :| k in rest;
      n, rest := if n < k then k else n, rest - {k};
    }
  }

  /** Accounts in `left` still wait for their virtual nonce; the others have no gap. */
  ghost predicate Settling(p: Pool, left: set<Address>) {
    forall a {:trigger LaggingAt(p, a)} {:trigger GaplessAt(p.pending, p.state, p.nonces, a)} ::
      if a in left then LaggingAt(p, a) else GaplessAt(p.pending, p.state, p.nonces, a)
  }

  lemma StartSettling(p: Pool)
    requires AllLagging(p)
    ensures Settling(p, p.pending.Keys)
  {
    forall a | a !in p.pending ensures GaplessAt(p.pending, p.state, p.nonces, a) {
      assert LaggingAt(p, a);
      LaggingEmpty(NonceOf(p.state, a), Virtual(p.nonces, p.state, a));
    }
    forall a | a in p.pending ensures LaggingAt(p, a) {}
  }

  lemma LaggingEmpty(s: nat, virtual: nat)
    requires Lagging(map[], s, virtual)
    ensures Spans(map[], s, virtual)
  {
    var end: nat :| Spans(map[], s, end) && s <= virtual <= end;
  }

  lemma LaggingLast(items: Items, s: nat, virtual: nat, n: nat)
    requires Lagging(items, s, virtual) && n in items && forall k :: k in items ==> k <= n
    ensures Spans(items, s, n + 1)
  {
    var end: nat :| Spans(items, s, end) && s <= virtual <= end;
    assert end - 1 in items;
  }

  lemma SettlingStep(p: Pool, r: Pool, left: set<Address>, a: Address, n: nat)
    requires Settling(p, left) && a in left && n in ItemsOf(p.pending, a) && forall k :: k in ItemsOf(p.pending, a) ==>
               k <= n
    requires r == p.(nonces := p.nonces[a := n + 1])
    ensures Settling(r, left - {a})
  {
    assert LaggingAt(p, a);
    LaggingLast(ItemsOf(p.pending, a), NonceOf(p.state, a), Virtual(p.nonces, p.state, a), n);
    forall b ensures if b in left - {a} then LaggingAt(r, b) else GaplessAt(r.pending, r.state, r.nonces, b) {
      if b != a {
        assert LaggingAt(p, b) || GaplessAt(p.pending, p.state, p.nonces, b);
        ElsewhereSame(p, r, a, b);
      }
    }
  }

  /** The virtual nonce of an account with pending transactions is just past the last of them; others keep theirs. */
  ghost predicate SettledAt(p: Pool, r: Pool, a: Address) {
    if a in p.pending then PastLast(p.pending[a].items, Virtual(r.nonces, p.state, a))
    else Virtual(r.nonces, p.state, a) == Virtual(p.nonces, p.state, a)
  }

  ghost predicate PastLast(items: Items, n: nat) {
    0 < n && n - 1 in items && forall k :: k in items ==> k < n
  }

  ghost predicate NoncesSettled(p: Pool, r: Pool, left: set<Address>) {
    forall a {:trigger SettledAt(p, r, a)} :: a !in left ==> SettledAt(p, r, a)
  }

  lemma SettledNext(p: Pool, q: Pool, r: Pool, left: set<Address>, a: Address, n: nat)
    requires NoncesSettled(p, q, left) && a in left && a in p.pending && q == p.(nonces := q.nonces)
    requires PastLast(p.pending[a].items, n) && r == q.(nonces := q.nonces[a := n])
    ensures NoncesSettled(p, r, left - {a})
  {
    forall b | b !in left - {a} ensures SettledAt(p, r, b) {
      if b != a { assert SettledAt(p, q, b); }
    }
  }

  /** The last part of a reorg run: the virtual nonce of every pending account is set past its last transaction. */
  method SettleNonces(p: Pool) returns (r: Pool)
    requires p.Valid()
    ensures r.Valid() && r == p.(nonces := r.nonces) && NoncesSettled(p, r, {})
    ensures AllLagging(p) ==> r.Gapfree()
  {
    r := p;
    var left := p.pending.Keys;
    if AllLagging(p) {
      StartSettling(p);
    }
    while left != {}
      invariant left <= p.pending.Keys && r == p.(nonces := r.nonces) && NoncesSettled(p, r, left)
      invariant AllLagging(p) ==> Settling(r, left)
      decreases left
    {
      var a :| a in left;
      var n := LastNonce(r.pending[a].items);
      ghost var before := r;
      r := r.(nonces := r.nonces[a := n + 1]);
      SettledNext(p, before, r, left, a, n + 1);
      if AllLagging(p) {
        SettlingStep(before, r, left, a, n);
      }
      left := left - {a};
    }
  }

  /**
   * The rules of admission at some moment: whether a nonce must be the account's, and the checks
   * on a transaction alone.
   */
  datatype Rules = Rules(exactNonce: bool, checks: Tx -> Checks)

  /** What a batch of additions keeps, after its first `i` transactions. */
  ghost predicate Adding(p: Pool, r: Pool, txs: seq<Tx>, i: nat)
    requires i <= |txs|
  {
    && r.Valid() && (p.Gapfree() ==> r.Gapfree())
    && r == p.(known := r.known, pending := r.pending, queue := r.queue, nonces := r.nonces, beats := r.beats,
         locals := r.locals)
    && r.known.log.made <= p.known.log.made + multiset(txs[..i])
    && (p.AllPayable() ==> r.AllPayable())
  }

  /** What one addition of a batch does to the pool before it. */
  ghost predicate AddedAs(p: Pool, tx: Tx, local: bool, error: Option<TxError>, r: Pool, result: AddResult) {
    exists drop :: AddOutcome(p, tx, local, error, r, result, drop)
  }

  /** The pools between the additions of a batch, and the result of each. */
  ghost predicate AddTrace(states: seq<Pool>, txs: seq<Tx>, local: bool, rules: Rules, results: seq<AddResult>,
                           n: nat) {
    && n <= |txs| && |states| == n + 1 && |results| == n
    && forall i :: 0 <= i < n ==>
         AddedAs(states[i], txs[i], local, Validate(states[i], txs[i], rules.exactNonce, rules.checks(txs[i])),
           states[i + 1], results[i])
  }

  lemma TraceNext(states: seq<Pool>, txs: seq<Tx>, local: bool, rules: Rules, results: seq<AddResult>, n: nat,
                  r: Pool, result: AddResult)
    requires AddTrace(states, txs, local, rules, results, n) && n < |txs|
    requires AddedAs(states[n], txs[n], local, Validate(states[n], txs[n], rules.exactNonce, rules.checks(txs[n])),
               r, result)
    ensures AddTrace(states + [r], txs, local, rules, results + [result], n + 1)
  {
  }

  method AddNext(p: Pool, q: Pool, txs: seq<Tx>, i: nat, local: bool, exactNonce: bool, checks: Checks)
    returns (r: Pool, result: AddResult)
    requires i < |txs| && Adding(p, q, txs, i)
    ensures Adding(p, r, txs, i + 1)
    ensures AddedAs(q, txs[i], local, Validate(q, txs[i], exactNonce, checks), r, result)
  {
    assert txs[..i + 1] == txs[..i] + [txs[i]];
    ghost var drop;
    r, result, drop := Add(q, txs[i], local, exactNonce, checks);
    if Validate(q, txs[i], exactNonce, checks).None? {
      PayableIfValid(q, txs[i], exactNonce, checks);
    }
    AddedPayable(q, txs[i], local, Validate(q, txs[i], exactNonce, checks), r, result, drop);
  }

  lemma PayableIfValid(p: Pool, tx: Tx, exactNonce: bool, checks: Checks)
    requires Validate(p, tx, exactNonce, checks).None?
    ensures !Exceeds(tx, BalanceOf(p.state, tx.from), p.maxGas)
  {
    assert !Violates(p, tx, exactNonce, checks, GasLimit) && !Violates(p, tx, exactNonce, checks, InsufficientFunds);
  }

  /** Only what its sender can pay for is taken in. */
  lemma AddedPayable(p: Pool, tx: Tx, local: bool, error: Option<TxError>, r: Pool, result: AddResult, drop: set<Tx>)
    requires AddOutcome(p, tx, local, error, r, result, drop) && r.state == p.state && r.maxGas == p.maxGas
    requires error.None? ==> !Exceeds(tx, BalanceOf(p.state, tx.from), p.maxGas)
    ensures p.AllPayable() ==> r.AllPayable()
    ensures r.known.log.made <= p.known.log.made + multiset{tx}
  {
  }

  /** The senders of the transactions that were accepted without replacing another. */
  ghost predicate DirtyAre(dirty: set<Address>, txs: seq<Tx>, results: seq<AddResult>)
    requires |results| <= |txs|
  {
    forall a :: a in dirty <==> exists i :: 0 <= i < |results| && results[i] == Accepted(false) && txs[i].from == a
  }

  lemma DirtyNext(dirty: set<Address>, txs: seq<Tx>, results: seq<AddResult>, result: AddResult)
    requires |results| < |txs| && DirtyAre(dirty, txs, results)
    ensures DirtyAre(if result == Accepted(false) then dirty + {txs[|results|].from}
              else dirty, txs, results + [result])
  {
    var more := results + [result];
    assert forall i :: 0 <= i < |results| ==> more[i] == results[i];
    assert more[|results|] == result;
  }

  /** Adds a batch; `dirty` collects the accounts with newly queued transactions. */
  method AddTxsLocked(p: Pool, txs: seq<Tx>, local: bool, rules: Rules)
    returns (r: Pool, dirty: set<Address>, results: seq<AddResult>, ghost states: seq<Pool>)
    requires p.Valid()
    ensures Adding(p, r, txs, |txs|) && (txs == [] ==> r == p)
    ensures AddTrace(states, txs, local, rules, results, |txs|) && states[0] == p && states[|txs|] == r
    ensures DirtyAre(dirty, txs, results)
  {
    r, dirty, results, states := p, {}, [], [p];
    for i := 0 to |txs|
      invariant Adding(p, r, txs, i) && (i == 0 ==> r == p)
      invariant AddTrace(states, txs, local, rules, results, i) && states[0] == p && states[i] == r
      invariant DirtyAre(dirty, txs, results)
    {
      var result;
      r, result := AddNext(p, r, txs, i, local, rules.exactNonce, rules.checks(txs[i]));
      TraceNext(states, txs, local, rules, results, i, r, result);
      DirtyNext(dirty, txs, results, result);
      if result == Accepted(false) {
        dirty := dirty + {txs[i].from};
      }
      results, states := results + [result], states + [r];
    }
  }

  /** Drops every remote transaction below the threshold. */
  method SetGasPrice(p: Pool, threshold: nat) returns (r: Pool)
    requires p.Valid()
    ensures r.Valid() && r.known.log == p.known.log && r.known.txs <= p.known.txs && (p.Gapfree() ==> r.Gapfree())
    ensures r == p.(known := r.known, pending := r.pending, queue := r.queue, nonces := r.nonces, beats := r.beats)
    ensures p.known.log.clean ==>
              r.known.txs == set tx | tx in p.known.txs && (IsLocal(p.locals, tx) || threshold <= tx.price)
  {
    var known, drop := DropCheap(p.known, threshold, p.locals);
    r := RemoveDropped(p.(known := known), drop);
  }

  /** The remote accounts with a queue that were heard from recently enough; one without a heartbeat was not. */
  function Active(p: Pool, lifetime: nat): set<Address> {
    set a | a in Remotes(p) && a in p.beats && p.clock <= p.beats[a] + lifetime
  }

  /** Drops the queues of the remote accounts that were idle for too long. */
  method EvictIdle(p: Pool, lifetime: nat) returns (r: Pool)
    requires p.Valid()
    ensures Draining(p, r, Active(p, lifetime))
  {
    r := p;
    var left, stale := Remotes(p), Remotes(p) - Active(p, lifetime);
    assert left - stale == Active(p, lifetime);
    while stale != {}
      invariant Draining(p, r, left) && left <= Remotes(p) && stale <= left && left - stale == Active(p, lifetime)
      decreases stale
    {
      var a :| a in stale;
      r := DrainOne(p, r, left, a);
      OneLess(left, stale, a);
      left, stale := left - {a}, stale - {a};
    }
  }

  lemma OneLess(left: set<Address>, stale: set<Address>, a: Address)
    requires a in stale && stale <= left
    ensures left - {a} - (stale - {a}) == left - stale && stale - {a} <= left - {a}
  {
  }

  /** What a head change asks of the pool: nothing if the blocks or the state it needs are missing. */
  datatype HeadChange = Missing | Moved(state: State, maxGas: nat, reinject: seq<Tx>)

  /** The pool follows the new head, forgets its virtual nonces and takes back what the reorg set free. */
  ghost predicate ResetTo(p: Pool, head: HeadChange, r: Pool) {
    if head.Missing? then r == p else
      && r.state == head.state && r.maxGas == head.maxGas
      && Adding(p.(state := head.state, maxGas := head.maxGas, nonces := map[]), r, head.reinject, |head.reinject|)
      && (head.reinject == [] ==> r == p.(state := head.state, maxGas := head.maxGas, nonces := map[]))
  }

  /** The part of reset that follows the walk over the two branches. */
  method Reset(p: Pool, head: HeadChange, rules: Rules) returns (r: Pool)
    requires p.Valid()
    ensures r.Valid() && r.config == p.config && ResetTo(p, head, r)
    ensures head.Moved? ==> Logged(p, r, head.reinject)
  {
    r := p;
    if head.Moved? {
      r := p.(state := head.state, maxGas := head.maxGas, nonces := map[]);
      ghost var moved := r;
      var dirty, results;
      ghost var states;
      r, dirty, results, states := AddTxsLocked(r, head.reinject, false, rules);
      assert head.reinject[..|head.reinject|] == head.reinject;
    }
  }

  /** Only transactions of `txs` were made known. */
  ghost predicate Logged(p: Pool, r: Pool, txs: seq<Tx>) {
    r.known.log.made <= p.known.log.made + multiset(txs)
  }

  /** The new head extends the old one: nothing comes back and no account nonce falls. Or the pool cannot follow it. */
  ghost predicate Forward(state: State, head: HeadChange) {
    head.Moved? ==> head.reinject == [] && forall a :: NonceOf(state, a) <= NonceOf(head.state, a)
  }

  /**
   * The pending transactions of a pool that follows a head are still intervals, and if the head
   * extends the chain, every account settles.
   */
  lemma MovedStarts(p: Pool, r: Pool, head: HeadChange)
    requires p.Gapfree() && head.Moved? && r == p.(state := head.state, maxGas := head.maxGas, nonces := map[])
    ensures AllStart(r) && (Forward(p.state, head) ==> AllSettle(r))
  {
    forall a ensures StartsAt(r, a) && (Forward(p.state, head) ==> SettlesAt(r, a)) {
      assert GaplessAt(p.pending, p.state, p.nonces, a);
      FirstPending(ItemsOf(r.pending, a), NonceOf(p.state, a), Virtual(p.nonces, p.state, a));
    }
  }

  /**
   * A head on another branch, with lower nonces: what was taken back fills the gap below an
   * account's pending transactions.
   */
  lemma TakenBack(p: Pool, r: Pool, a: Address)
    requires GaplessAt(p.pending, p.state, p.nonces, a) && ItemsOf(r.pending, a).Keys == ItemsOf(p.pending, a).Keys
    requires Virtual(r.nonces, r.state, a) == NonceOf(r.state, a)
    ensures StartsAt(r, a)
    ensures Refills(EligibleAt(r, a), NonceOf(r.state, a), NonceOf(p.state, a)) ==> SettlesAt(r, a)
  {
    var lo, hi := NonceOf(p.state, a), Virtual(p.nonces, p.state, a);
    forall n ensures n in ItemsOf(r.pending, a) <==> lo <= n < hi {
      assert n in ItemsOf(r.pending, a).Keys <==> n in ItemsOf(p.pending, a).Keys;
    }
    assert Spans(ItemsOf(r.pending, a), lo, hi);
    FirstPending(ItemsOf(r.pending, a), lo, hi);
  }

  lemma GapfreeIsLagging(p: Pool)
    requires p.Gapfree()
    ensures AllLagging(p)
  {
    forall a ensures LaggingAt(p, a) {
      assert GaplessAt(p.pending, p.state, p.nonces, a);
    }
  }

  /** The configured limits hold, except for what local accounts and the allowance per account excuse. */
  ghost predicate Bounded(p: Pool) {
    && (Total(p.pending) <= p.config.globalSlots ||
        forall a :: a in p.pending && a !in p.locals ==> |p.pending[a].items| <= p.config.accountSlots)
    && (Total(p.queue) <= p.config.globalQueue || forall a :: a in p.queue ==> a in p.locals)
  }

  /** The pending lists after their limit was enforced. */
  ghost predicate PendingCut(p: Pool, r: Pool) {
    && Keeps(p, r)
    && (if Total(p.pending) <= p.config.globalSlots then r == p else exists level :: Truncated(p, r, level))
  }

  /** The queues after their limit was enforced. */
  ghost predicate QueueCut(p: Pool, r: Pool) {
    && r == p.(known := r.known, queue := r.queue)
    && (if Total(p.queue) <= p.config.globalQueue then r == p else QueueTruncated(p, r))
  }

  /** The end of every run: both limits are enforced and the virtual nonces are brought up to date. */
  method Truncate(p: Pool) returns (r: Pool, ghost cut: Pool, ghost trimmed: Pool)
    requires p.Valid() && 1 <= p.config.accountSlots
    ensures PendingCut(p, cut) && QueueCut(cut, trimmed) && r == trimmed.(nonces := r.nonces)
    ensures NoncesSettled(trimmed, r, {})
    ensures r.Valid() && r.known.log == p.known.log && r.known.txs <= p.known.txs && Bounded(r)
    ensures r == p.(known := r.known, pending := r.pending, queue := r.queue, nonces := r.nonces)
    ensures AllLagging(p) ==> r.Gapfree()
  {
    var dropped;
    ghost var level;
    r, dropped, level := TruncatePending(p);
    cut := r;
    r := TruncateQueue(r);
    trimmed := r;
    AllowanceKept(p, cut, level);
    assert AllLagging(cut) ==> AllLagging(r) by { SamePending(cut, r); }
    r := SettleNonces(r);
  }

  lemma SamePending(p: Pool, r: Pool)
    requires r == p.(known := r.known, queue := r.queue)
    ensures AllLagging(p) ==> AllLagging(r)
  {
    if AllLagging(p) {
      forall a ensures LaggingAt(r, a) {
        assert LaggingAt(p, a);
      }
    }
  }

  lemma AllowanceKept(p: Pool, r: Pool, level: nat)
    requires Keeps(p, r) && (p.config.globalSlots < Total(p.pending) ==> Truncated(p, r, level))
    requires Total(p.pending) <= p.config.globalSlots ==> r == p
    ensures Total(r.pending) <= p.config.globalSlots ||
            forall a :: a in r.pending && a !in p.locals ==> |r.pending[a].items| <= p.config.accountSlots
  {
    if p.config.globalSlots < Total(r.pending) {
      forall a | a in r.pending && a !in p.locals ensures |r.pending[a].items| <= p.config.accountSlots {
        assert SizesOf(r.pending)[a] == LevelSizes(SizesOf(p.pending), Spammers(p), level)[a];
      }
    }
  }

  /** The pool after each part of a reorg run. */
  datatype Stages = Stages(reset: Pool, promoted: Pool, demoted: Pool, cut: Pool, trimmed: Pool)

  /** The first half of a run: reset, promotion and demotion. */
  ghost predicate Reworked(p: Pool, reset: bool, head: HeadChange, dirty: set<Address>, start: Pool, q: Pool, r: Pool) {
    && (if reset then ResetTo(p, head, start) else start == p)
    && AllPromoted(start, q, if reset then start.queue.Keys else dirty) && q.Valid()
    && (if reset then AllDemoted(q, r, q.pending.Keys) else r == q)
  }

  /** A run does exactly this: reset, promote, demote, enforce both limits, and bring the virtual nonces up to date. */
  ghost predicate RanAs(p: Pool, reset: bool, head: HeadChange, dirty: set<Address>, s: Stages, r: Pool) {
    && Reworked(p, reset, head, dirty, s.reset, s.promoted, s.demoted)
    && PendingCut(s.demoted, s.cut) && QueueCut(s.cut, s.trimmed)
    && r == s.trimmed.(nonces := r.nonces) && NoncesSettled(s.trimmed, r, {})
  }

  lemma GapfreeIsWhole(p: Pool, r: Pool)
    requires r.Gapfree() && r.pending == p.pending && r.state == p.state
    ensures AllWhole(p)
  {
    forall a ensures WholeAt(p, a) {
      assert GaplessAt(r.pending, r.state, r.nonces, a);
    }
  }

  /**
   * What becomes of a run whose head left the pending transactions of every account an interval:
   * there is no gap and no alert if and only if every account settles. Enforcing the limit can cut
   * away what is above a gap.
   */
  ghost predicate Decided(s: Stages, r: Pool, alerts: nat) {
    && (AllWhole(s.demoted) && alerts == 0 <==> AllSettle(s.reset))
    && AlertsWhere(s.reset, Alerted(s.promoted))
    && (AllSettle(s.reset) ==> r.Gapfree())
    && (Total(s.demoted.pending) <= r.config.globalSlots ==>
         (r.Gapfree() && alerts == 0 <==> AllSettle(s.reset)))
  }

  ghost predicate Discarded(p: Pool, events: TxEvents, left: TxEvents, todo: set<Address>) {
    forall a {:trigger EventsOf(left, a)} :: EventsOf(left, a) ==
      if a in todo then EventsOf(events, a) else AtLeast(EventsOf(events, a), Virtual(p.nonces, p.state, a))
  }

  lemma DiscardedOne(p: Pool, events: TxEvents, left: TxEvents, todo: set<Address>, a: Address)
    requires Discarded(p, events, left, todo) && a in todo
    ensures var items := AtLeast(EventsOf(events, a), Virtual(p.nonces, p.state, a));
            Discarded(p, events, if items == map[] then left - {a} else left[a := items], todo - {a})
  {
    var items := AtLeast(EventsOf(events, a), Virtual(p.nonces, p.state, a));
    var left' := if items == map[] then left - {a} else left[a := items];
    forall b ensures EventsOf(left', b) == if b in todo - {a} then EventsOf(events, b)
                                           else AtLeast(EventsOf(events, b), Virtual(p.nonces, p.state, b)) {
      if b != a {
        assert EventsOf(left', b) == EventsOf(left, b);
      }
    }
  }

  /** Announcements below the account's nonce are out of date after a reset. */
  method DiscardStale(p: Pool, events: TxEvents) returns (left: TxEvents)
    ensures Discarded(p, events, left, {})
  {
    left := events;
    var todo := events.Keys;
    assert forall t :: AtLeast(map[], t) == map[];
    while todo != {}
      invariant todo <= events.Keys && Discarded(p, events, left, todo)
      decreases todo
    {
      var a :| a in todo;
      var items := AtLeast(events[a], Virtual(p.nonces, p.state, a));
      DiscardedOne(p, events, left, todo, a);
      left := if items == map[] then left - {a} else left[a := items];
      todo := todo - {a};
    }
  }

  ghost predicate Joined(events: TxEvents, promoted: TxEvents, all: TxEvents, todo: set<Address>) {
    forall a {:trigger EventsOf(all, a)} ::
      EventsOf(all, a) == if a in todo then EventsOf(events, a) else EventsOf(events, a) + EventsOf(promoted, a)
  }

  lemma JoinedOne(events: TxEvents, promoted: TxEvents, all: TxEvents, todo: set<Address>, a: Address)
    requires Joined(events, promoted, all, todo) && a in todo && a in promoted
    ensures var all' := if promoted[a] == map[] then all else all[a := EventsOf(all, a) + promoted[a]];
            Joined(events, promoted, all', todo - {a})
  {
    var all' := if promoted[a] == map[] then all else all[a := EventsOf(all, a) + promoted[a]];
    forall b ensures EventsOf(all', b) == if b in todo - {a} then EventsOf(events, b)
                                          else EventsOf(events, b) + EventsOf(promoted, b) {
      if b != a {
        assert EventsOf(all', b) == EventsOf(all, b);
      } else {
        assert EventsOf(events, a) + map[] == EventsOf(events, a);
      }
    }
  }

  /** What was promoted joins what was queued for announcement, and replaces it at the same nonce. */
  method Announce(events: TxEvents, promoted: TxEvents) returns (all: TxEvents)
    ensures Joined(events, promoted, all, {})
  {
    all := events;
    var todo := promoted.Keys;
    assert forall a :: EventsOf(events, a) + map[] == EventsOf(events, a);
    while todo != {}
      invariant todo <= promoted.Keys && Joined(events, promoted, all, todo)
      decreases todo
    {
      var a :| a in todo;
      JoinedOne(events, promoted, all, todo, a);
      if promoted[a] != map[] {
        all := all[a := EventsOf(all, a) + promoted[a]];
      }
      todo := todo - {a};
    }
  }

  /** What a run announces: the events that are not out of date, and everything it promoted. */
  ghost predicate Announces(p: Pool, reset: bool, accounts: set<Address>, events: TxEvents, all: TxEvents) {
    forall a {:trigger EventsOf(all, a)} :: EventsOf(all, a) ==
      (if reset then AtLeast(EventsOf(events, a), Virtual(p.nonces, p.state, a)) else EventsOf(events, a)) +
      (if a in accounts && a in p.queue then ReadyAt(p, a) else map[])
  }

  lemma AnnouncesBoth(p: Pool, reset: bool, accounts: set<Address>, events: TxEvents, left: TxEvents,
                      promoted: TxEvents, all: TxEvents)
    requires if reset then Discarded(p, events, left, {}) else left == events
    requires Takes(p, accounts, promoted) && Joined(left, promoted, all, {})
    ensures Announces(p, reset, accounts, events, all)
  {
    forall a ensures EventsOf(all, a) ==
      (if reset then AtLeast(EventsOf(events, a), Virtual(p.nonces, p.state, a)) else EventsOf(events, a)) +
      (if a in accounts && a in p.queue then ReadyAt(p, a) else map[])
    {
      assert EventsOf(all, a) == EventsOf(left, a) + EventsOf(promoted, a);
    }
  }

  /** It goes well if and only if every account settles. */
  ghost predicate WellIf(start: Pool, q: Pool, r: Pool, alerts: nat) {
    && (AllWhole(r) && alerts == 0 <==> AllSettle(start)) && (AllSettle(start) ==> AllLagging(r))
    && AlertsWhere(start, Alerted(q))
  }

  /** Promotion and demotion, as they follow a head change. */
  method Follow(p: Pool) returns (r: Pool, alerts: nat, promoted: TxEvents, ghost q: Pool)
    requires p.Valid()
    ensures r.Valid() && r.known.log == p.known.log && r.known.txs <= p.known.txs
    ensures r == p.(known := r.known, pending := r.pending, queue := r.queue, nonces := r.nonces, beats := r.beats)
    ensures Followed(p, q, r) && alerts == |Alerted(q)| && r.AllPayable() && Takes(p, p.queue.Keys, promoted)
    ensures AllStart(p) ==> WellIf(p, q, r, alerts)
    ensures p.Gapfree() && p.AllPayable() ==> AllLagging(r) && alerts == 0
  {
    r, promoted := PromoteExecutables(p, p.queue.Keys);
    q := r;
    r, alerts := DemoteUnexecutables(r);
    RunMakesPayable(p, q, r);
    if AllStart(p) {
      RunSettles(p, q, r);
    }
    if p.Gapfree() && p.AllPayable() {
      PayableDemotable(q);
      DemotedLagging(q, r);
    }
  }

  method Rework(p: Pool, reset: bool, head: HeadChange, dirty: set<Address>, rules: Rules)
    returns (start: Pool, r: Pool, alerts: nat, promoted: TxEvents, ghost q: Pool)
    requires p.Valid()
    ensures r.Valid() && r.config == p.config && Reworked(p, reset, head, dirty, start, q, r)
    ensures r.state == if reset && head.Moved? then head.state else p.state
    ensures if reset && head.Moved? then Logged(p, r, head.reinject) else r.known.log == p.known.log
    ensures p.AllPayable() || reset ==> r.AllPayable()
    ensures reset && AllStart(start) ==> WellIf(start, q, r, alerts)
    ensures p.Gapfree() && (!reset || (Forward(p.state, head) && p.AllPayable())) ==> AllLagging(r) && alerts == 0
    ensures alerts == if reset then |Alerted(q)| else 0
    ensures Takes(start, if reset then start.queue.Keys else dirty, promoted)
  {
    start, alerts := p, 0;
    if reset {
      start := Reset(p, head, rules);
      if p.Gapfree() && head.Moved? && head.reinject == [] {
        MovedStarts(p, start, head);
      }
      r, alerts, promoted, q := Follow(start);
    } else {
      r, promoted := PromoteExecutables(p, dirty);
      q := r;
      if p.Gapfree() {
        GapfreeIsLagging(r);
      }
    }
  }

  /**
   * One run of the reorg loop. `head` is the head change it serves, if any, `dirty` the
   * accounts with new transactions, `events` what waits to be announced. `alerts` counts the
   * accounts found with a gap in front; `all` is announced.
   */
  method RunReorg(p: Pool, reset: bool, head: HeadChange, dirty: set<Address>, rules: Rules, events: TxEvents)
    returns (r: Pool, alerts: nat, all: TxEvents, ghost s: Stages)
    requires p.Valid() && 1 <= p.config.accountSlots
    ensures r.Valid() && r.config == p.config && Bounded(r)
    ensures RanAs(p, reset, head, dirty, s, r)
    ensures r.state == if reset && head.Moved? then head.state else p.state
    ensures if reset && head.Moved? then Logged(p, r, head.reinject) else r.known.log == p.known.log
    ensures p.AllPayable() || reset ==> r.AllPayable()
    ensures reset && AllStart(s.reset) ==> Decided(s, r, alerts)
    ensures p.Gapfree() && (!reset || (Forward(p.state, head) && p.AllPayable())) ==> r.Gapfree() && alerts == 0
    ensures alerts == if reset then |Alerted(s.promoted)| else 0
    ensures Announces(s.reset, reset, if reset then s.reset.queue.Keys else dirty, events, all)
  {
    var start, demoted, promoted;
    ghost var q, cut, trimmed;
    start, demoted, alerts, promoted, q := Rework(p, reset, head, dirty, rules);
    var left := events;
    if reset {
      left := DiscardStale(start, events);
    }
    all := Announce(left, promoted);
    AnnouncesBoth(start, reset, if reset then start.queue.Keys else dirty, events, left, promoted, all);
    r, cut, trimmed := Truncate(demoted);
    s := Stages(start, q, demoted, cut, trimmed);
    if r.Gapfree() && r.pending == demoted.pending {
      GapfreeIsWhole(demoted, r);
    }
  }

  /** Limits and demotion only take away. */
  lemma OnlyFewer(p: Pool, reset: bool, head: HeadChange, dirty: set<Address>, s: Stages, r: Pool, a: Address, tx: Tx)
    requires RanAs(p, reset, head, dirty, s, r) && Stores(ItemsOf(r.pending, a), tx)
    ensures Stores(ItemsOf(s.promoted.pending, a), tx)
  {
    assert Stores(ItemsOf(s.demoted.pending, a), tx);
    if reset {
      assert InOrder(s.promoted, a);
      DemotedTo(s.promoted, s.demoted, a);
      RestWithin(ListOf(s.promoted.pending, a, true), LimitsOf(s.promoted, a));
    }
  }

  lemma RestWithin(l: ListV, lim: Limits)
    requires l.WellFormed() && l.strict
    ensures Within(Refiltered(l, lim).rest.items, l.items)
  {
    FilterExact(l.(items := AtLeast(l.items, lim.nonce)), lim.balance, lim.maxGas);
  }

  /** So every transaction that a run makes pending is announced. */
  lemma NothingUnannounced(p: Pool, reset: bool, head: HeadChange, dirty: set<Address>, s: Stages, r: Pool,
                           events: TxEvents, all: TxEvents, a: Address, tx: Tx)
    requires RanAs(p, reset, head, dirty, s, r)
    requires Announces(s.reset, reset, if reset then s.reset.queue.Keys else dirty, events, all)
    requires Stores(ItemsOf(r.pending, a), tx) && !Stores(ItemsOf(s.reset.pending, a), tx)
    ensures Stores(EventsOf(all, a), tx)
  {
    OnlyFewer(p, reset, head, dirty, s, r, a, tx);
    GainedOnly(s.reset, s.promoted, if reset then s.reset.queue.Keys else dirty, a, tx);
  }

  /** What promotion makes pending is what it takes from the queue. */
  lemma GainedOnly(p: Pool, q: Pool, accounts: set<Address>, a: Address, tx: Tx)
    requires AllPromoted(p, q, accounts)
    requires Stores(ItemsOf(q.pending, a), tx) && !Stores(ItemsOf(p.pending, a), tx)
    ensures a in accounts && a in p.queue && Stores(ReadyAt(p, a), tx)
  {
    assert SameAt(p, q, a) || PromotedAt(p, q, a);
  }

  /** A pool with one pending transaction, that of account `a` at its state nonce. */
  function PoolOfOne(config: Config, known: Known, a: Address, tx: Tx, account: Account, maxGas: nat): Pool {
    Pool(config, known, map[a := account], map[a := tx.nonce + 1], maxGas, {},
      map[a := Added(EmptyList(true), tx)], map[], map[], 0)
  }

  lemma PoolOfOneOk(config: Config, known: Known, a: Address, tx: Tx, account: Account, maxGas: nat)
    requires known.Valid() && known.Settled() && known.txs == {tx} && tx.from == a && account.nonce == tx.nonce
    requires !Exceeds(tx, account.balance, maxGas)
    ensures var p := PoolOfOne(config, known, a, tx, account, maxGas); p.Valid() && p.Gapfree() && p.AllPayable()
  {
    var p := PoolOfOne(config, known, a, tx, account, maxGas);
    forall b ensures AccountOk(b, ListOf(p.pending, b, true), ListOf(p.queue, b, false), p.known.txs) {}
    forall b ensures GaplessAt(p.pending, p.state, p.nonces, b) {}
    assert tx.nonce in p.pending[a].items;
  }

  /** Nothing is queued, so the account is stranded by any head that lowers its nonce and still lets it pay. */
  lemma LoweredStrands(config: Config, known: Known, a: Address, tx: Tx, account: Account, lower: Account, maxGas: nat)
    requires tx.from == a && lower.nonce < account.nonce == tx.nonce && !Exceeds(tx, lower.balance, maxGas)
    ensures var p := PoolOfOne(config, known, a, tx, account, maxGas);
            Stranded(p.(state := map[a := lower], nonces := map[]), a)
  {
    var p := PoolOfOne(config, known, a, tx, account, maxGas).(state := map[a := lower], nonces := map[]);
    FirstPending(ItemsOf(p.pending, a), tx.nonce, tx.nonce + 1);
    EligibleAre(EmptyList(false), LimitsOf(p, a), a);
    assert NonceOf(p.state, a) == lower.nonce && lower.nonce !in EligibleAt(p, a);
  }

  /** A head that lowers a nonce from 5 to 3 and sets nothing free: the run finds a gap in front and raises an alert. */
  method LoweredExample(config: Config, rules: Rules) returns (p: Pool, head: HeadChange, r: Pool, alerts: nat)
    requires 1 <= config.accountSlots
    ensures p.Valid() && p.Gapfree() && p.AllPayable() && head.Moved? && head.reinject == []
    ensures NonceOf(p.state, Address(1)) == 5 && NonceOf(head.state, Address(1)) == 3
    ensures 0 < alerts
  {
    var a := Address(1);
    var tx := Tx(a, 5, 1, 21000, 21000, 1, 0);
    ghost var s;
    var known := NothingKnown();
    known := Admit(known, tx);
    p := PoolOfOne(config, known, a, tx, Account(5, 21000), 21000);
    PoolOfOneOk(config, known, a, tx, Account(5, 21000), 21000);
    head := Moved(map[a := Account(3, 21000)], 21000, []);
    var all;
    r, alerts, all, s := RunReorg(p, true, head, {}, rules, map[]);
    MovedStarts(p, s.reset, head);
    LoweredStrands(config, known, a, tx, Account(5, 21000), Account(3, 21000), 21000);
    assert Stranded(s.reset, a);
    assert a in Alerted(s.promoted);
  }

  /** What can happen to the pool while it holds its lock. */
  datatype Event =
    | Sent(txs: seq<Tx>, local: bool, rules: Rules)
    | Priced(threshold: nat)
    | Ticked(now: nat)
    | Evicted(lifetime: nat)
    | PromotionDue(dirty: set<Address>)
    | HeadChanged(head: HeadChange, dirty: set<Address>, rules: Rules)

  function StateAfter(state: State, e: Event): State {
    if e.HeadChanged? && e.head.Moved? then e.head.state else state
  }

  function TxsOf(e: Event): seq<Tx> {
    if e.Sent? then e.txs else if e.HeadChanged? && e.head.Moved? then e.head.reinject else []
  }

  ghost predicate Extends(state: State, e: Event) {
    e.HeadChanged? ==> Forward(state, e.head)
  }

  ghost predicate Handled(p: Pool, e: Event, r: Pool, alerts: nat) {
    && r.Valid() && r.config == p.config && r.state == StateAfter(p.state, e) && Logged(p, r, TxsOf(e))
    && (e.HeadChanged? || e.PromotionDue? ==> Bounded(r))
    && (p.AllPayable() ==> r.AllPayable())
    && (p.Gapfree() && p.AllPayable() && Extends(p.state, e) ==> r.Gapfree() && alerts == 0)
  }

  /** What each event does to the contents of the pool. */
  ghost predicate Effect(p: Pool, e: Event, r: Pool) {
    match e
    case Sent(txs, local, rules) =>
      exists states, results ::
        AddTrace(states, txs, local, rules, results, |txs|) && states[0] == p && states[|txs|] == r
    case Priced(threshold) =>
      && r.known.txs <= p.known.txs
      && r == p.(known := r.known, pending := r.pending, queue := r.queue, nonces := r.nonces, beats := r.beats)
      && (p.known.log.clean ==>
           r.known.txs == set tx | tx in p.known.txs && (IsLocal(p.locals, tx) || threshold <= tx.price))
    case Ticked(now) => r == p.(clock := now)
    case Evicted(lifetime) => Draining(p, r, Active(p, lifetime))
    case PromotionDue(dirty) => exists s :: RanAs(p, false, Missing, dirty, s, r)
    case HeadChanged(head, dirty, _) => exists s :: RanAs(p, true, head, dirty, s, r)
  }

  lemma FewerHandled(p: Pool, e: Event, r: Pool)
    requires r.Valid() && r.config == p.config && r.state == p.state == StateAfter(p.state, e) && r.maxGas == p.maxGas
    requires r.known.log == p.known.log && r.known.txs <= p.known.txs && (p.Gapfree() ==> r.Gapfree())
    requires !e.HeadChanged? && !e.PromotionDue?
    ensures Handled(p, e, r, 0)
  {
  }

  method HandleRun(p: Pool, e: Event) returns (r: Pool, alerts: nat)
    requires p.Valid() && 1 <= p.config.accountSlots && (e.HeadChanged? || e.PromotionDue?)
    ensures Handled(p, e, r, alerts) && Effect(p, e, r)
  {
    var all;
    ghost var s;
    if e.HeadChanged? {
      r, alerts, all, s := RunReorg(p, true, e.head, e.dirty, e.rules, map[]);
    } else {
      var rules := Rules(false, (tx: Tx) => Checks(false, true, Some(0)));
      r, alerts, all, s := RunReorg(p, false, Missing, e.dirty, rules, map[]);
    }
  }

  method HandleSent(p: Pool, e: Event) returns (r: Pool)
    requires p.Valid() && e.Sent?
    ensures Handled(p, e, r, 0) && Effect(p, e, r)
  {
    var dirty, results;
    ghost var states;
    r, dirty, results, states := AddTxsLocked(p, e.txs, e.local, e.rules);
    assert e.txs[..|e.txs|] == e.txs;
  }

  method Handle(p: Pool, e: Event) returns (r: Pool, alerts: nat)
    requires p.Valid() && 1 <= p.config.accountSlots
    ensures Handled(p, e, r, alerts) && Effect(p, e, r)
  {
    alerts := 0;
    match e {
      case Sent(_, _, _) => r := HandleSent(p, e);
      case Priced(threshold) => r := SetGasPrice(p, threshold); FewerHandled(p, e, r);
      case Ticked(now) => r := p.(clock := now); FewerHandled(p, e, r);
      case Evicted(lifetime) => r := EvictIdle(p, lifetime); FewerHandled(p, e, r);
      case PromotionDue(_) => r, alerts := HandleRun(p, e);
      case HeadChanged(_, _, _) => r, alerts := HandleRun(p, e);
    }
  }

  ghost function StateAt(state: State, events: seq<Event>, i: nat): State
    requires i <= |events|
  {
    if i == 0 then state else StateAfter(StateAt(state, events, i - 1), events[i - 1])
  }

  /** The transactions handed to the pool by the first `i` events. */
  ghost function Inserted(events: seq<Event>, i: nat): seq<Tx>
    requires i <= |events|
  {
    if i == 0 then [] else Inserted(events, i - 1) + TxsOf(events[i - 1])
  }

  /** Heads only extend the chain. */
  ghost predicate OnlyExtends(state: State, events: seq<Event>, n: nat)
    requires n <= |events|
  {
    forall i :: 0 <= i < n ==> Extends(StateAt(state, events, i), events[i])
  }

  function NewPool(config: Config, state: State, maxGas: nat, locals: set<Address>): Pool {
    Pool(config, Known({}, 0, PriceHeap([], 0), 0, {}, Log(multiset{}, true)), state, map[], maxGas, locals, map[],
      map[], map[], 0)
  }

  lemma NewPoolOk(config: Config, state: State, maxGas: nat, locals: set<Address>)
    ensures var p := NewPool(config, state, maxGas, locals); p.Valid() && p.Gapfree() && p.AllPayable()
  {
    var p := NewPool(config, state, maxGas, locals);
    forall a ensures AccountOk(a, ListOf(p.pending, a, true), ListOf(p.queue, a, false), p.known.txs) {}
    forall a ensures GaplessAt(p.pending, p.state, p.nonces, a) {}
  }

  /**
   * What holds after the first `i` events of any history of a new pool. The price heap is
   * sound, by `Valid`, unless some transaction was made known more than once.
   */
  ghost predicate Reached(state: State, events: seq<Event>, i: nat, r: Pool, alerts: nat)
    requires i <= |events|
  {
    && r.Valid() && r.state == StateAt(state, events, i) && r.AllPayable()
    && r.known.log.made <= multiset(Inserted(events, i))
    && (Once(r.known.log.made) ==> Sound(r.known.heap.items, r.known.heap.stales, r.known.txs))
    && (OnlyExtends(state, events, i) ==> r.Gapfree() && alerts == 0)
  }

  lemma NewPoolReached(config: Config, state: State, maxGas: nat, locals: set<Address>, events: seq<Event>)
    ensures Reached(state, events, 0, NewPool(config, state, maxGas, locals), 0)
  {
    NewPoolOk(config, state, maxGas, locals);
    SettledSound(NewPool(config, state, maxGas, locals).known);
  }

  lemma ReachedNext(state: State, events: seq<Event>, i: nat, p: Pool, alerts: nat, r: Pool, more: nat)
    requires i < |events| && Reached(state, events, i, p, alerts) && Handled(p, events[i], r, more)
    ensures Reached(state, events, i + 1, r, alerts + more)
  {
    MadeNext(p.known.log.made, r.known.log.made, Inserted(events, i), TxsOf(events[i]));
    if r.known.log.clean {
      SettledSound(r.known);
    }
    if OnlyExtends(state, events, i + 1) {
      assert Extends(StateAt(state, events, i), events[i]);
    }
  }

  lemma MadeNext(before: multiset<Tx>, after: multiset<Tx>, old': seq<Tx>, new': seq<Tx>)
    requires before <= multiset(old') && after <= before + multiset(new')
    ensures after <= multiset(old' + new')
  {
    assert multiset(old' + new') == multiset(old') + multiset(new');
  }

  /** The end of a reorg run leaves the limits enforced. */
  ghost predicate BoundedAfter(events: seq<Event>, i: nat, r: Pool)
    requires i <= |events|
  {
    0 < i && (events[i - 1].HeadChanged? || events[i - 1].PromotionDue?) ==> Bounded(r)
  }

  /** What holds after `i` events, in a pool with the given configuration. */
  ghost predicate InRun(config: Config, state: State, events: seq<Event>, i: nat, r: Pool, alerts: nat)
    requires i <= |events|
  {
    r.config == config && Reached(state, events, i, r, alerts) && BoundedAfter(events, i, r)
  }

  method RunNext(config: Config, state: State, events: seq<Event>, i: nat, p: Pool, alerts: nat)
    returns (r: Pool, alerts': nat)
    requires i < |events| && InRun(config, state, events, i, p, alerts) && 1 <= config.accountSlots
    ensures InRun(config, state, events, i + 1, r, alerts') && Effect(p, events[i], r)
  {
    var more;
    r, more := Handle(p, events[i]);
    ReachedNext(state, events, i, p, alerts, r, more);
    alerts' := alerts + more;
  }

  method RunStart(config: Config, state: State, maxGas: nat, locals: set<Address>, ghost events: seq<Event>)
    returns (r: Pool, alerts: nat)
    ensures InRun(config, state, events, 0, r, alerts) && r == NewPool(config, state, maxGas, locals)
  {
    r, alerts := NewPool(config, state, maxGas, locals), 0;
    NewPoolReached(config, state, maxGas, locals, events);
  }

  /** The pools between the events: each is what its event makes of the one before. */
  ghost predicate Traced(pools: seq<Pool>, events: seq<Event>, n: nat) {
    n <= |events| && |pools| == n + 1 && forall i :: 0 <= i < n ==> Effect(pools[i], events[i], pools[i + 1])
  }

  lemma TracedNext(pools: seq<Pool>, events: seq<Event>, n: nat, r: Pool)
    requires Traced(pools, events, n) && n < |events| && Effect(pools[n], events[n], r)
    ensures Traced(pools + [r], events, n + 1)
  {
  }

  /** Every history of a new pool, whatever happens and in whatever order. */
  method Run(config: Config, state: State, maxGas: nat, locals: set<Address>, events: seq<Event>)
    returns (r: Pool, alerts: nat, ghost pools: seq<Pool>)
    requires 1 <= config.accountSlots
    ensures InRun(config, state, events, |events|, r, alerts)
    ensures Traced(pools, events, |events|) && pools[0] == NewPool(config, state, maxGas, locals)
    ensures pools[|events|] == r
  {
    r, alerts := RunStart(config, state, maxGas, locals, events);
    pools := [r];
    for i := 0 to |events|
      invariant InRun(config, state, events, i, r, alerts)
      invariant Traced(pools, events, i) && pools[0] == NewPool(config, state, maxGas, locals) && pools[i] == r
    {
      r, alerts := RunNext(config, state, events, i, r, alerts);
      TracedNext(pools, events, i, r);
      pools := pools + [r];
    }
  }
}
