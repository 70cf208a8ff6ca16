/**
 * The scheduler of reorg runs. Requests and the ends of runs arrive in any order; requests
 * that come in while a run is active are merged into the next one. Done channels are numbered
 * in the order in which they are made.
 */
module Schedulers {
  import opened Basics
  import opened Transactions

  datatype Header = Header(id: nat)

  datatype Span = Span(oldHead: Header, newHead: Header)

  /** `RunEnds` is the active run closing its channel, `Noticed` the loop receiving from it. */
  datatype Input =
    | ResetAsked(span: Span)
    | PromoteAsked(accounts: set<Address>)
    | EventQueued(tx: Tx)
    | RunEnds
    | Noticed
    | Shutdown

  datatype Job = Job(done: nat, reset: Option<Span>, dirty: Option<set<Address>>, events: TxEvents)

  /** A request and the channel handed out for it. */
  datatype Entry = Entry(channel: nat, what: Input)

  /** The requests that were given channel `k`, in order. */
  ghost function Batch(log: seq<Entry>, k: nat): seq<Input> {
    if log == [] then [] else
      var last := log[|log| - 1];
      Batch(log[..|log| - 1], k) + if last.channel == k then [last.what] else []
  }

  function Merge(reset: Option<Span>, span: Span): Option<Span> {
    if reset.None? then Some(span) else Some(Span(reset.value.oldHead, span.newHead))
  }

  function Join(dirty: Option<set<Address>>, accounts: set<Address>): Option<set<Address>> {
    if dirty.None? then Some(accounts) else Some(dirty.value + accounts)
  }

  function Queued(events: TxEvents, tx: Tx): TxEvents {
    var items := if tx.from in events then events[tx.from] else map[];
    events[tx.from := items[tx.nonce := tx]]
  }

  /** The work that a batch of requests adds up to. */
  ghost function Merged(k: nat, batch: seq<Input>): Job {
    if batch == [] then Job(k, None, None, map[]) else
      var job := Merged(k, batch[..|batch| - 1]);
      match batch[|batch| - 1]
      case ResetAsked(span) => job.(reset := Merge(job.reset, span))
      case PromoteAsked(accounts) => job.(dirty := Join(job.dirty, accounts))
      case EventQueued(tx) => job.(events := Queued(job.events, tx))
      case _ => job
  }

  /** A run that serves any reset at all goes from the first old head asked for to the last new head asked for. */
  lemma {:induction false} ResetSpans(k: nat, batch: seq<Input>, i: nat, j: nat)
    requires i <= j < |batch| && batch[i].ResetAsked? && batch[j].ResetAsked?
    requires forall n :: 0 <= n < i ==> !batch[n].ResetAsked?
    requires forall n :: j < n < |batch| ==> !batch[n].ResetAsked?
    ensures Merged(k, batch).reset == Some(Span(batch[i].span.oldHead, batch[j].span.newHead))
    decreases batch
  {
    var front, last := batch[..|batch| - 1], |batch| - 1;
    if i == last {
      NoReset(k, front);
    } else if j < last {
      ResetSpans(k, front, i, j);
    } else {
      var m := LastReset(front, i);
      ResetSpans(k, front, i, m);
    }
  }

  lemma LastReset(batch: seq<Input>, i: nat) returns (j: nat)
    requires i < |batch| && batch[i].ResetAsked?
    ensures i <= j < |batch| && batch[j].ResetAsked? && forall n :: j < n < |batch| ==> !batch[n].ResetAsked?
  {
    j := |batch| - 1;
    while !batch[j].ResetAsked?
      invariant i <= j < |batch| && forall n :: j < n < |batch| ==> !batch[n].ResetAsked?
      decreases j
    {
      j := j - 1;
    }
  }

  lemma {:induction false} NoReset(k: nat, batch: seq<Input>)
    requires forall n :: 0 <= n < |batch| ==> !batch[n].ResetAsked?
    ensures Merged(k, batch).reset == None
  {
    if batch != [] {
      NoReset(k, batch[..|batch| - 1]);
    }
  }

  /** An account is promoted exactly if some request of the batch named it. */
  lemma {:induction false} DirtyIsUnion(k: nat, batch: seq<Input>, a: Address)
    ensures var dirty := Merged(k, batch).dirty;
            dirty.Some? && a in dirty.value <==>
            exists i :: 0 <= i < |batch| && batch[i].PromoteAsked? && a in batch[i].accounts
  {
    if batch != [] {
      var front := batch[..|batch| - 1];
      DirtyIsUnion(k, front, a);
      assert forall i :: 0 <= i < |front| ==> front[i] == batch[i];
    }
  }

  /** The transaction that the merged events hold for a sender and nonce, if any. */
  ghost function EventAt(events: TxEvents, a: Address, n: nat): Option<Tx> {
    if a in events && n in events[a] then Some(events[a][n]) else None
  }

  /** Of the transactions queued with one sender and nonce, the run announces the last. */
  lemma {:induction false} LastEventStays(k: nat, batch: seq<Input>, i: nat)
    requires i < |batch| && batch[i].EventQueued?
    requires forall j :: i < j < |batch| && batch[j].EventQueued? ==>
               batch[j].tx.from != batch[i].tx.from || batch[j].tx.nonce != batch[i].tx.nonce
    ensures EventAt(Merged(k, batch).events, batch[i].tx.from, batch[i].tx.nonce) == Some(batch[i].tx)
    decreases batch
  {
    if i < |batch| - 1 {
      LastEventStays(k, batch[..|batch| - 1], i);
    }
  }

  /** The run has something to do: a reset or a promotion was asked for. */
  ghost predicate Due(batch: seq<Input>) {
    exists i :: 0 <= i < |batch| && (batch[i].ResetAsked? || batch[i].PromoteAsked?)
  }

  /** What the scheduler has brought about: the runs it launched, how many have ended, and which channels are closed. */
  datatype World = World(runs: seq<Job>, ended: nat, log: seq<Entry>, closed: set<nat>)

  /**
   * What holds at every moment: at most one run is active; channel `k` was handed out exactly
   * for the requests that run `k` carries, or will carry; and, unless the pool shuts down, the
   * closed channels are those of the runs that have ended.
   */
  ghost predicate Scheduled(w: World, down: bool) {
    && w.ended <= |w.runs| <= w.ended + 1
    && (forall k :: 0 <= k < |w.runs| ==> w.runs[k] == Merged(k, Batch(w.log, k)) && Due(Batch(w.log, k)))
    && (forall i :: 0 <= i < |w.log| ==> w.log[i].channel <= |w.runs|)
    && (forall i, j :: 0 <= i < j < |w.log| ==> w.log[i].channel <= w.log[j].channel)
    && (forall k: nat :: k in w.closed <==> k < w.ended || (down && k == |w.runs|))
    && (down ==> w.ended == |w.runs|)
  }

  lemma LogOne(w: World, what: Input)
    requires Scheduled(w, false)
    ensures var w' := w.(log := w.log + [Entry(|w.runs|, what)]);
            Scheduled(w', false) && Batch(w'.log, |w.runs|) == Batch(w.log, |w.runs|) + [what]
  {
    var log := w.log + [Entry(|w.runs|, what)];
    assert log[..|w.log|] == w.log;
    forall k | 0 <= k < |w.runs| ensures Batch(log, k) == Batch(w.log, k) {}
  }

  lemma MergeOne(k: nat, batch: seq<Input>, what: Input)
    ensures Merged(k, batch + [what]) ==
            (var job := Merged(k, batch);
             match what
             case ResetAsked(span) => job.(reset := Merge(job.reset, span))
             case PromoteAsked(accounts) => job.(dirty := Join(job.dirty, accounts))
             case EventQueued(tx) => job.(events := Queued(job.events, tx))
             case _ => job)
  {
    var all := batch + [what];
    assert all[..|batch|] == batch && all[|batch|] == what;
  }

  lemma DueOne(batch: seq<Input>, what: Input)
    ensures Due(batch + [what]) <==> Due(batch) || what.ResetAsked? || what.PromoteAsked?
  {
    var all := batch + [what];
    assert forall i :: 0 <= i < |batch| ==> all[i] == batch[i];
    assert all[|batch|] == what;
  }

  lemma {:induction false} NothingYet(log: seq<Entry>, k: nat)
    requires forall i :: 0 <= i < |log| ==> log[i].channel < k
    ensures Batch(log, k) == []
  {
    if log != [] {
      NothingYet(log[..|log| - 1], k);
    }
  }

  /** The scheduler without its variables: what it has brought about, and the run it waits for. */
  datatype Snapshot = Snapshot(world: World, waits: Option<nat>)

  /** What each input means by itself; a run can end, or its end be noticed, only if there is one. */
  ghost function Heard(s: Snapshot, input: Input): Snapshot {
    var w := s.world;
    match input
    case RunEnds =>
      if w.ended < |w.runs| then s.(world := w.(closed := w.closed + {w.ended}, ended := w.ended + 1)) else s
    case Noticed => if s.waits.Some? && s.waits.value in w.closed then s.(waits := None) else s
    case Shutdown => s
    case _ => s.(world := w.(log := w.log + [Entry(|w.runs|, input)]))
  }

  /** A batch that is due is launched if the scheduler waits for nothing. */
  ghost function Started(s: Snapshot): Snapshot {
    var k := |s.world.runs|;
    var batch := Batch(s.world.log, k);
    if s.waits.None? && Due(batch) then Snapshot(s.world.(runs := s.world.runs + [Merged(k, batch)]), Some(k)) else s
  }

  /** After the first `i` inputs, without a shutdown. */
  ghost function After(inputs: seq<Input>, i: nat): Snapshot
    requires i <= |inputs|
  {
    if i == 0 then Snapshot(World([], 0, [], {}), None) else Started(Heard(After(inputs, i - 1), inputs[i - 1]))
  }

  /** A shutdown waits for the active run and closes the channel of the next. */
  ghost function Stopped(s: Snapshot): World {
    var w := s.world;
    w.(ended := |w.runs|, closed := w.closed + (if w.ended < |w.runs| then {w.ended} else {}) + {|w.runs|})
  }

  /** The variables of the loop. */
  datatype Loop = Loop(curDone: Option<nat>, nextDone: nat, launchNextRun: bool, reset: Option<Span>,
                       dirtyAccounts: Option<set<Address>>, queuedEvents: TxEvents)

  /** What the next run would be given. */
  function Pending(l: Loop): Job {
    Job(l.nextDone, l.reset, l.dirtyAccounts, l.queuedEvents)
  }

  ghost predicate InLoop(l: Loop, w: World) {
    && Scheduled(w, false)
    && Pending(l) == Merged(|w.runs|, Batch(w.log, |w.runs|))
    && l.launchNextRun == Due(Batch(w.log, |w.runs|))
    && (if l.curDone.None? then w.ended == |w.runs| else 0 < |w.runs| && l.curDone.value == |w.runs| - 1)
  }

  lemma {:induction false} MergedDone(k: nat, batch: seq<Input>)
    ensures Merged(k, batch).done == k
  {
    if batch != [] {
      MergedDone(k, batch[..|batch| - 1]);
    }
  }

  /** The head of the loop: launches the next run if it is due and none is active. */
  method Launch(l: Loop, w: World) returns (l': Loop, w': World)
    requires InLoop(l, w)
    ensures InLoop(l', w') && (l'.launchNextRun ==> l'.curDone.Some?)
    ensures w' == w.(runs := w'.runs)
    ensures w'.runs == if l.curDone.None? && l.launchNextRun then w.runs + [Pending(l)] else w.runs
    ensures Snapshot(w', l'.curDone) == Started(Snapshot(w, l.curDone))
  {
    l', w' := l, w;
    if l.curDone.None? && l.launchNextRun {
      w' := w.(runs := w.runs + [Pending(l)]);
      MergedDone(|w.runs|, Batch(w.log, |w.runs|));
      NothingYet(w.log, |w'.runs|);
      l' := Loop(Some(l.nextDone), l.nextDone + 1, false, None, None, map[]);
    }
  }

  predicate IsRequest(input: Input) {
    input.ResetAsked? || input.PromoteAsked? || input.EventQueued?
  }

  /** The requests among the first `i` inputs, in order. */
  ghost function Asked(inputs: seq<Input>, i: nat): seq<Input>
    requires i <= |inputs|
  {
    if i == 0 then [] else Asked(inputs, i - 1) + if IsRequest(inputs[i - 1]) then [inputs[i - 1]] else []
  }

  ghost predicate Records(log: seq<Entry>, asked: seq<Input>) {
    |log| == |asked| && forall i :: 0 <= i < |log| ==> log[i].what == asked[i]
  }

  lemma RecordsNext(log: seq<Entry>, inputs: seq<Input>, i: nat, k: nat)
    requires i < |inputs| && Records(log, Asked(inputs, i))
    ensures Records(if IsRequest(inputs[i]) then log + [Entry(k, inputs[i])] else log, Asked(inputs, i + 1))
  {
  }

  /** The cases of the select that take a request; `l.nextDone` is what the requester is given. */
  method Take(l: Loop, w: World, input: Input) returns (l': Loop, w': World)
    requires InLoop(l, w) && IsRequest(input)
    ensures InLoop(l', w') && w' == w.(log := w.log + [Entry(|w.runs|, input)]) && l'.curDone == l.curDone
  {
    LogOne(w, input);
    MergeOne(|w.runs|, Batch(w.log, |w.runs|), input);
    DueOne(Batch(w.log, |w.runs|), input);
    MergedDone(|w.runs|, Batch(w.log, |w.runs|));
    w' := w.(log := w.log + [Entry(l.nextDone, input)]);
    match input {
      case ResetAsked(span) => l' := l.(reset := Merge(l.reset, span), launchNextRun := true);
      case PromoteAsked(accounts) => l' := l.(dirtyAccounts := Join(l.dirtyAccounts, accounts), launchNextRun := true);
      case EventQueued(tx) => l' := l.(queuedEvents := Queued(l.queuedEvents, tx));
    }
  }

  /** One round of the select; an input that is not possible when its turn comes is passed over. */
  method Select(l: Loop, w: World, input: Input) returns (l': Loop, w': World, down: bool)
    requires InLoop(l, w)
    ensures if down then Scheduled(w', true) else InLoop(l', w')
    ensures down == input.Shutdown? && w'.runs == w.runs
    ensures w'.log == if IsRequest(input) then w.log + [Entry(|w.runs|, input)] else w.log
    ensures IsRequest(input) ==> w' == w.(log := w'.log)
    ensures if down then w' == Stopped(Snapshot(w, l.curDone))
            else Snapshot(w', l'.curDone) == Heard(Snapshot(w, l.curDone), input)
  {
    l', w', down := l, w, false;
    if IsRequest(input) {
      l', w' := Take(l, w, input);
    } else if input.RunEnds? {
      if w.ended < |w.runs| {
        w' := w.(closed := w.closed + {w.ended}, ended := w.ended + 1);
      }
    } else if input.Noticed? {
      if l.curDone.Some? && l.curDone.value in w.closed {
        l' := l.(curDone := None);
      }
    } else {
      if l.curDone.Some? && l.curDone.value !in w.closed {
        w' := w.(closed := w.closed + {l.curDone.value}, ended := w.ended + 1);
      }
      MergedDone(|w.runs|, Batch(w.log, |w.runs|));
      w', down := w'.(closed := w'.closed + {l.nextDone}), true;
    }
  }

  /** The loop is back at the select after the first `i` inputs, none of them a shutdown. */
  ghost predicate AtSelect(l: Loop, w: World, inputs: seq<Input>, i: nat)
    requires i <= |inputs|
  {
    && InLoop(l, w) && (l.launchNextRun ==> l.curDone.Some?) && Records(w.log, Asked(inputs, i))
    && Snapshot(w, l.curDone) == After(inputs, i)
    && forall j :: 0 <= j < i ==> !inputs[j].Shutdown?
  }

  /** One round: the select, and then the head of the loop. */
  method Round(l: Loop, w: World, inputs: seq<Input>, i: nat) returns (l': Loop, w': World, down: bool)
    requires i < |inputs| && AtSelect(l, w, inputs, i)
    ensures down == inputs[i].Shutdown?
    ensures if down then Scheduled(w', true) && Records(w'.log, Asked(inputs, i)) && w' == Stopped(After(inputs, i))
            else AtSelect(l', w', inputs, i + 1)
  {
    RecordsNext(w.log, inputs, i, |w.runs|);
    l', w', down := Select(l, w, inputs[i]);
    if !down {
      l', w' := Launch(l', w');
    }
  }

  /** The first shutdown is input `i`; nothing after it is heard. */
  ghost predicate DownAt(w: World, inputs: seq<Input>, i: nat)
    requires i < |inputs|
  {
    && inputs[i].Shutdown? && (forall j :: 0 <= j < i ==> !inputs[j].Shutdown?)
    && w == Stopped(After(inputs, i)) && Records(w.log, Asked(inputs, i))
  }

  method Turn(l: Loop, w: World, inputs: seq<Input>, i: nat) returns (l': Loop, w': World, down: bool)
    requires i < |inputs| && AtSelect(l, w, inputs, i)
    ensures down == inputs[i].Shutdown?
    ensures if down then Scheduled(w', true) && DownAt(w', inputs, i) else AtSelect(l', w', inputs, i + 1)
  {
    l', w', down := Round(l, w, inputs, i);
  }

  /**
   * The whole loop on one interleaving of inputs. `busy` tells whether the loop still waits
   * for a run when it is back at the select; a batch that is due waits for nothing else.
   */
  method ScheduleReorgLoop(inputs: seq<Input>) returns (w: World, busy: bool, down: bool)
    ensures Scheduled(w, down)
    ensures !down ==> w == After(inputs, |inputs|).world && busy == After(inputs, |inputs|).waits.Some?
    ensures !down ==> Records(w.log, Asked(inputs, |inputs|))
    ensures !down && Due(Batch(w.log, |w.runs|)) ==> busy && 0 < |w.runs|
    ensures down <==> exists i :: 0 <= i < |inputs| && inputs[i].Shutdown?
    ensures down ==> exists i: nat :: i < |inputs| && DownAt(w, inputs, i)
  {
    var l := Loop(None, 0, false, None, None, map[]);
    w, busy, down := World([], 0, [], {}), false, false;
    for i := 0 to |inputs|
      invariant AtSelect(l, w, inputs, i)
    {
      l, w, down := Turn(l, w, inputs, i);
      if down {
        assert DownAt(w, inputs, i);
        return;
      }
    }
    busy := l.curDone.Some?;
  }

  /** A request that comes while a run is active waits for the next one. */
  method AskedWhileActive(l: Loop, w: World, input: Input) returns (l': Loop, w': World)
    requires InLoop(l, w) && IsRequest(input) && w.ended < |w.runs|
    ensures InLoop(l', w') && w' == w.(log := w.log + [Entry(|w.runs|, input)])
  {
    var down;
    l', w', down := Select(l, w, input);
    l', w' := Launch(l', w');
    assert |w'.runs| == |w.runs|;
  }

  /** Nothing is asked for and no run is active. */
  ghost predicate AtRest(l: Loop, w: World) {
    InLoop(l, w) && l.curDone.None? && Batch(w.log, |w.runs|) == []
  }

  lemma ResetAlone(k: nat, span: Span)
    ensures Merged(k, [ResetAsked(span)]) == Job(k, Some(span), None, map[]) && Due([ResetAsked(span)])
  {
    var batch := [ResetAsked(span)];
    assert batch[..0] == [] && Merged(k, []) == Job(k, None, None, map[]);
    assert batch[0].ResetAsked?;
  }

  /** A reset that is asked for then is launched at once. */
  method AskedAtRest(l: Loop, w: World, span: Span) returns (l': Loop, w': World)
    requires AtRest(l, w)
    ensures InLoop(l', w') && w'.ended < |w'.runs|
    ensures w' == w.(log := w.log + [Entry(|w.runs|, ResetAsked(span))],
                     runs := w.runs + [Job(|w.runs|, Some(span), None, map[])])
  {
    LogOne(w, ResetAsked(span));
    ResetAlone(|w.runs|, span);
    l', w' := Take(l, w, ResetAsked(span));
    l', w' := Launch(l', w');
  }

  /**
   * A promotion that is asked for while that run is active, just before the pool shuts down: the
   * channel handed out for it is closed, and there is no run that carries it.
   */
  method NeverRun(l: Loop, w: World, span: Span, accounts: set<Address>) returns (w': World)
    requires AtRest(l, w)
    ensures var k := |w.runs|;
            && w'.log == w.log + [Entry(k, ResetAsked(span))] + [Entry(k + 1, PromoteAsked(accounts))]
            && k + 1 in w'.closed && w'.runs == w.runs + [Job(k, Some(span), None, map[])]
  {
    var l', down;
    l', w' := AskedAtRest(l, w, span);
    l', w' := AskedWhileActive(l', w', PromoteAsked(accounts));
    l', w', down := Select(l', w', Shutdown);
  }

  /** The loop starts in such a state. */
  method NeverRunExample(span: Span, accounts: set<Address>) returns (w: World)
    ensures |w.runs| == 1 && w.runs[0].dirty.None? && 1 in w.closed
    ensures |w.log| == 2 && w.log[1] == Entry(1, PromoteAsked(accounts))
  {
    w := NeverRun(Loop(None, 0, false, None, None, map[]), World([], 0, [], {}), span, accounts);
  }
}
