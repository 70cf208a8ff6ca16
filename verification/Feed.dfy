/**
 * The event feed. While a value is being sent, the list of select cases is partitioned in
 * place: the cases that still wait for delivery form a prefix of it. Senders, subscribers and
 * unsubscribers take turns in any order, one access to the inbox or to the cases at a time.
 */
module Feeds {

  /** The first case receives requests to unsubscribe, the others send to a subscribed channel. */
  datatype Case = RemoveSub | Sub(channel: nat)

  /** The case for unsubscribing comes first, and only there. */
  ghost predicate IsCaseList(cases: seq<Case>) {
    0 < |cases| && cases[0] == RemoveSub && forall i :: 0 < i < |cases| ==> cases[i].Sub?
  }

  ghost predicate AllSubs(cases: seq<Case>) {
    forall i :: 0 <= i < |cases| ==> cases[i].Sub?
  }

  /** A case that occurs is found. */
  method Find(cases: seq<Case>, case': Case) returns (index: int)
    ensures index == -1 <==> case' !in cases
    ensures index != -1 ==> 0 <= index < |cases| && cases[index] == case'
  {
    for i := 0 to |cases|
      invariant case' !in cases[..i]
    {
      if cases[i] == case' {
        return i;
      }
    }
    index := -1;
  }

  function Deleted(cases: seq<Case>, index: nat): seq<Case>
    requires index < |cases|
  {
    cases[..index] + cases[index + 1..]
  }

  lemma DeletedContents(cases: seq<Case>, index: nat)
    requires index < |cases|
    ensures multiset(cases) == multiset(Deleted(cases, index)) + multiset{cases[index]}
  {
    assert cases == cases[..index] + ([cases[index]] + cases[index + 1..]);
  }

  /** Moves a case to the end of the prefix of length `n`. */
  function Deactivated(cases: seq<Case>, n: nat, index: nat): seq<Case>
    requires index < n <= |cases|
  {
    cases[index := cases[n - 1]][n - 1 := cases[index]]
  }

  /** Swapping an element to the end of a list and cutting it off takes just that element away. */
  lemma SwappedOut(s: seq<Case>, i: nat)
    requires i < |s|
    ensures multiset(s) == multiset(s[i := s[|s| - 1]][..|s| - 1]) + multiset{s[i]}
  {
    var front, last := s[..|s| - 1], s[|s| - 1];
    assert s == front + [last];
    if i < |s| - 1 {
      assert s[i := last][..|s| - 1] == front[i := last];
    } else {
      assert s[i := last] == s;
    }
  }

  /** The case leaves the active prefix and joins the cases behind it. */
  lemma DeactivatedContents(cases: seq<Case>, n: nat, index: nat)
    requires IsCaseList(cases) && 0 < index < n <= |cases|
    ensures var cases' := Deactivated(cases, n, index);
            && IsCaseList(cases') && |cases'| == |cases|
            && multiset(cases[1..n]) == multiset(cases'[1..n - 1]) + multiset{cases[index]}
            && multiset(cases'[n - 1..]) == multiset(cases[n..]) + multiset{cases[index]}
  {
    var cases', active := Deactivated(cases, n, index), cases[1..n];
    SwappedOut(active, index - 1);
    DeactivatedParts(cases, n, index);
    assert multiset([cases[index]] + cases[n..]) == multiset{cases[index]} + multiset(cases[n..]);
  }

  lemma DeactivatedParts(cases: seq<Case>, n: nat, index: nat)
    requires 0 < index < n <= |cases|
    ensures var cases', active := Deactivated(cases, n, index), cases[1..n];
            && cases'[1..n - 1] == active[index - 1 := active[|active| - 1]][..|active| - 1]
            && cases'[n - 1..] == [cases[index]] + cases[n..]
  {
  }

  /**
   * Where a send stands: `n` is the length of the active prefix, `start` what was subscribed at
   * the beginning, `dropped` and `removed` who unsubscribed before and after delivery.
   */
  ghost predicate Sending(cases: seq<Case>, n: nat, start: multiset<Case>, delivered: multiset<Case>,
                          dropped: multiset<Case>, removed: multiset<Case>) {
    && IsCaseList(cases) && 0 < n <= |cases|
    && multiset(cases[1..n]) + delivered + dropped == start
    && multiset(cases[n..]) + removed == delivered
  }

  lemma Delivered(cases: seq<Case>, n: nat, start: multiset<Case>, delivered: multiset<Case>,
                  dropped: multiset<Case>, removed: multiset<Case>, index: nat)
    requires Sending(cases, n, start, delivered, dropped, removed) && 0 < index < n
    ensures Sending(Deactivated(cases, n, index), n - 1, start, delivered + multiset{cases[index]}, dropped, removed)
  {
    DeactivatedContents(cases, n, index);
  }

  lemma DeletedInFront(cases: seq<Case>, n: nat, index: nat)
    requires 0 < index < n <= |cases|
    ensures Deleted(cases, index)[1..n - 1] == Deleted(cases[1..n], index - 1)
    ensures Deleted(cases, index)[n - 1..] == cases[n..]
  {
    var active := cases[1..n];
    assert active[..index - 1] == cases[1..index] && active[index..] == cases[index + 1..n];
    assert Deleted(cases, index)[1..n - 1] == cases[1..index] + cases[index + 1..n];
  }

  lemma DeletedBehind(cases: seq<Case>, n: nat, index: nat)
    requires 0 < n <= index < |cases|
    ensures Deleted(cases, index)[1..n] == cases[1..n] && Deleted(cases, index)[n..] == Deleted(cases[n..], index - n)
  {
  }

  /** Deleting an active case shrinks the prefix; deleting one behind it does not. */
  lemma Unsubscribed(cases: seq<Case>, n: nat, start: multiset<Case>, delivered: multiset<Case>,
                     dropped: multiset<Case>, removed: multiset<Case>, index: nat)
    requires Sending(cases, n, start, delivered, dropped, removed) && 0 < index < |cases|
    ensures var gone := multiset{cases[index]};
            if index < n then Sending(Deleted(cases, index), n - 1, start, delivered, dropped + gone, removed)
            else Sending(Deleted(cases, index), n, start, delivered, dropped, removed + gone)
  {
    assert IsCaseList(Deleted(cases, index));
    if index < n {
      DeletedInFront(cases, n, index);
      DeletedContents(cases[1..n], index - 1);
    } else {
      DeletedBehind(cases, n, index);
      DeletedContents(cases[n..], index - n);
    }
  }

  /** A subscription; several may use the same channel, and then share what `find` looks for. */
  datatype Subscription = Subscription(id: nat, channel: nat)

  ghost function Using(subs: set<Subscription>, channel: nat): set<Subscription> {
    set sub | sub in subs && sub.channel == channel
  }

  /** How many of the subscriptions use the channel. */
  ghost function Count(subs: set<Subscription>, channel: nat): nat {
    |Using(subs, channel)|
  }

  lemma CountAdded(subs: set<Subscription>, sub: Subscription, channel: nat)
    requires sub !in subs
    ensures Count(subs + {sub}, channel) == Count(subs, channel) + if sub.channel == channel then 1 else 0
  {
    if sub.channel == channel {
      assert Using(subs + {sub}, channel) == Using(subs, channel) + {sub};
    } else {
      assert Using(subs + {sub}, channel) == Using(subs, channel);
    }
  }

  lemma CountRemoved(subs: set<Subscription>, sub: Subscription, channel: nat)
    requires sub in subs
    ensures Count(subs, channel) == Count(subs - {sub}, channel) + if sub.channel == channel then 1 else 0
  {
    CountAdded(subs - {sub}, sub, channel);
    assert subs - {sub} + {sub} == subs;
  }

  lemma CountMonotone(few: set<Subscription>, many: set<Subscription>, channel: nat)
    requires few <= many
    ensures Count(few, channel) <= Count(many, channel)
  {
    SubsetSize(Using(few, channel), Using(many, channel));
  }

  lemma {:induction false} SubsetSize(few: set<Subscription>, many: set<Subscription>)
    requires few <= many
    ensures |few| <= |many|
  {
    assert many == few + (many - few);
  }

  /** One case for each of the subscriptions. */
  ghost predicate CasesOf(cases: multiset<Case>, subs: set<Subscription>) {
    forall channel: nat {:trigger Count(subs, channel)} :: cases[Sub(channel)] == Count(subs, channel)
  }

  lemma CaseOfEach(cases: multiset<Case>, subs: set<Subscription>, sub: Subscription)
    requires CasesOf(cases, subs) && sub !in subs
    ensures CasesOf(cases + multiset{Sub(sub.channel)}, subs + {sub})
  {
    forall channel: nat
      ensures (cases + multiset{Sub(sub.channel)})[Sub(channel)] == Count(subs + {sub}, channel)
    {
      CountAdded(subs, sub, channel);
    }
  }

  ghost function Occurrences(cases: seq<Case>, channel: nat): nat {
    multiset(cases)[Sub(channel)]
  }

  /**
   * Every live subscription has its case in the inbox or among the send cases, and those that
   * were not found in the inbox when they unsubscribed have theirs among the send cases.
   */
  ghost predicate Accounted(live: set<Subscription>, leaving: set<Subscription>, inbox: seq<Case>, cases: seq<Case>) {
    && leaving <= live
    && (forall channel: nat {:trigger Count(live, channel)} ::
          Count(live, channel) == Occurrences(inbox, channel) + Occurrences(cases, channel))
    && (forall channel: nat {:trigger Count(leaving, channel)} ::
          Count(leaving, channel) <= Occurrences(cases, channel))
  }

  lemma Joined(live: set<Subscription>, leaving: set<Subscription>, inbox: seq<Case>, cases: seq<Case>,
               sub: Subscription)
    requires Accounted(live, leaving, inbox, cases) && sub !in live
    ensures Accounted(live + {sub}, leaving, inbox + [Sub(sub.channel)], cases)
  {
    forall channel: nat
      ensures Count(live + {sub}, channel) ==
                Occurrences(inbox + [Sub(sub.channel)], channel) + Occurrences(cases, channel)
    {
      CountAdded(live, sub, channel);
    }
  }

  /** Deleting a case of the channel from the inbox pays for a subscription that has not looked there before. */
  lemma LeftInbox(live: set<Subscription>, leaving: set<Subscription>, inbox: seq<Case>, cases: seq<Case>,
                  sub: Subscription, index: nat)
    requires Accounted(live, leaving, inbox, cases) && sub in live - leaving
    requires index < |inbox| && inbox[index] == Sub(sub.channel)
    ensures Accounted(live - {sub}, leaving, Deleted(inbox, index), cases)
  {
    DeletedContents(inbox, index);
    forall channel: nat
      ensures Count(live - {sub}, channel) == Occurrences(Deleted(inbox, index), channel) + Occurrences(cases, channel)
    {
      CountRemoved(live, sub, channel);
    }
  }

  /** Who does not find the channel in the inbox has a case among the send cases, besides all who wait already. */
  lemma PassedInbox(live: set<Subscription>, leaving: set<Subscription>, inbox: seq<Case>, cases: seq<Case>,
                    sub: Subscription)
    requires Accounted(live, leaving, inbox, cases) && sub in live - leaving && Sub(sub.channel) !in inbox
    ensures Accounted(live, leaving + {sub}, inbox, cases)
  {
    forall channel: nat
      ensures Count(leaving + {sub}, channel) <= Occurrences(cases, channel)
    {
      CountAdded(leaving, sub, channel);
      if channel == sub.channel {
        CountMonotone(leaving + {sub}, live, channel);
        assert Occurrences(inbox, channel) == 0;
      }
    }
  }

  /** So `find` does not fail for them, whatever happened since. */
  lemma StillThere(live: set<Subscription>, leaving: set<Subscription>, inbox: seq<Case>, cases: seq<Case>,
                   sub: Subscription)
    requires Accounted(live, leaving, inbox, cases) && sub in leaving
    ensures Sub(sub.channel) in cases
  {
    CountRemoved(leaving, sub, sub.channel);
    assert 0 < Occurrences(cases, sub.channel);
  }

  lemma LeftCases(live: set<Subscription>, leaving: set<Subscription>, inbox: seq<Case>, cases: seq<Case>,
                  sub: Subscription, index: nat)
    requires Accounted(live, leaving, inbox, cases) && sub in leaving
    requires index < |cases| && cases[index] == Sub(sub.channel)
    ensures Accounted(live - {sub}, leaving - {sub}, inbox, Deleted(cases, index))
  {
    DeletedContents(cases, index);
    forall channel: nat
      ensures Count(live - {sub}, channel) == Occurrences(inbox, channel) + Occurrences(Deleted(cases, index), channel)
      ensures Count(leaving - {sub}, channel) <= Occurrences(Deleted(cases, index), channel)
    {
      CountRemoved(live, sub, channel);
      CountRemoved(leaving, sub, channel);
    }
  }

  /** Taking in the inbox loses nobody, and starts a partition in which everyone waits. */
  lemma Collected(live: set<Subscription>, leaving: set<Subscription>, inbox: seq<Case>, cases: seq<Case>)
    requires Accounted(live, leaving, inbox, cases) && AllSubs(inbox) && IsCaseList(cases)
    ensures var all := cases + inbox;
            && Accounted(live, leaving, [], all)
            && Sending(all, |all|, multiset(all[1..]), multiset{}, multiset{}, multiset{})
            && CasesOf(multiset(all[1..]), live)
  {
    var all := cases + inbox;
    assert all[1..|all|] == all[1..] && all[|all|..] == [] && all == [RemoveSub] + all[1..];
    forall channel: nat
      ensures Occurrences(all, channel) == Occurrences(cases, channel) + Occurrences(inbox, channel)
      ensures multiset(all[1..])[Sub(channel)] == Occurrences(all, channel)
    {
      assert multiset(all) == multiset{RemoveSub} + multiset(all[1..]);
    }
  }

  /** Where a sender stands: it holds the send lock unless it is idle. */
  datatype Phase = Idle | Locked | Trying(n: nat, i: nat) | Waiting(n: nat)

  /**
   * What one send did: who was live when it collected the inbox and who was handed over to it since;
   * to which cases it was addressed, which got the value, and which were taken out before or after that.
   */
  datatype Delivery = Delivery(present: set<Subscription>, gone: set<Subscription>, audience: multiset<Case>,
                               sent: multiset<Case>, dropped: multiset<Case>, removed: multiset<Case>)

  /**
   * The value was addressed to one case for each who was live, each case got it once or was taken
   * out before, and one case was taken out for each who was handed over.
   */
  ghost predicate Complete(d: Delivery) {
    && CasesOf(d.audience, d.present) && d.sent + d.dropped == d.audience
    && CasesOf(d.dropped + d.removed, d.gone) && d.removed <= d.sent
  }

  ghost predicate Reached(before: Delivery, after: Delivery, receiver: Case) {
    after == before.(sent := after.sent) && after.sent == before.sent + multiset{receiver}
  }

  /** The case of a subscription was taken out, while it was active or after it got the value. */
  ghost function TookOut(d: Delivery, sub: Subscription, active: bool): Delivery {
    var gone := multiset{Sub(sub.channel)};
    if active then d.(gone := d.gone + {sub}, dropped := d.dropped + gone)
    else d.(gone := d.gone + {sub}, removed := d.removed + gone)
  }

  /** The cases are divided as the delivery so far says. */
  ghost predicate Divides(cases: seq<Case>, n: nat, d: Delivery) {
    && Sending(cases, n, d.audience, d.sent, d.dropped, d.removed)
    && CasesOf(d.audience, d.present) && CasesOf(d.dropped + d.removed, d.gone)
  }

  lemma TookOutDivides(cases: seq<Case>, n: nat, d: Delivery, sub: Subscription, index: nat)
    requires Divides(cases, n, d) && sub !in d.gone && 0 < index < |cases| && cases[index] == Sub(sub.channel)
    ensures Divides(Deleted(cases, index), if index < n then n - 1 else n, TookOut(d, sub, index < n))
  {
    var gone := multiset{cases[index]};
    Unsubscribed(cases, n, d.audience, d.sent, d.dropped, d.removed, index);
    CaseOfEach(d.dropped + d.removed, d.gone, sub);
    assert (d.dropped + gone) + d.removed == (d.dropped + d.removed) + gone == d.dropped + (d.removed + gone);
  }

  /** Subscriptions are numbered in the order in which they are made, and who is gone is not live. */
  ghost predicate Distinct(live: set<Subscription>, gone: set<Subscription>, next: nat) {
    live !! gone && (forall sub :: sub in live ==> sub.id < next) && (forall sub :: sub in gone ==> sub.id < next)
  }

  lemma StaysDistinct(live: set<Subscription>, gone: set<Subscription>, next: nat, sub: Subscription)
    requires Distinct(live, gone, next) && sub in live
    ensures Distinct(live - {sub}, gone + {sub}, next)
  {
  }

  /** The lists and the subscriptions are in step. */
  ghost predicate InStep(inbox: seq<Case>, cases: seq<Case>, live: set<Subscription>, leaving: set<Subscription>,
                         next: nat, gone: set<Subscription>) {
    AllSubs(inbox) && IsCaseList(cases) && Accounted(live, leaving, inbox, cases) && Distinct(live, gone, next)
  }

  /** A receiver takes the value: its case leaves the active prefix, and everyone is still accounted for. */
  method Deactivate(cases: seq<Case>, n: nat, index: nat, ghost inbox: seq<Case>, ghost live: set<Subscription>,
                    ghost leaving: set<Subscription>, ghost next: nat, ghost d: Delivery)
    returns (cases': seq<Case>, ghost d': Delivery)
    requires InStep(inbox, cases, live, leaving, next, d.gone) && Divides(cases, n, d) && 0 < index < n
    ensures InStep(inbox, cases', live, leaving, next, d'.gone) && |cases'| == |cases| && Divides(cases', n - 1, d')
    ensures Reached(d, d', cases[index]) && d.sent <= d'.sent && |d'.sent| == |d.sent| + 1
  {
    cases', d' := Deactivated(cases, n, index), d.(sent := d.sent + multiset{cases[index]});
    Delivered(cases, n, d.audience, d.sent, d.dropped, d.removed, index);
    SameContents(cases, n, index);
    forall channel: nat ensures Occurrences(cases', channel) == Occurrences(cases, channel) {}
  }

  /** The case of who did not find it in the inbox is found, and not in the first place. */
  method Locate(cases: seq<Case>, sub: Subscription, ghost inbox: seq<Case>, ghost live: set<Subscription>,
                ghost leaving: set<Subscription>, ghost next: nat, ghost gone: set<Subscription>)
    returns (index: nat)
    requires InStep(inbox, cases, live, leaving, next, gone) && sub in leaving
    ensures 0 < index < |cases| && cases[index] == Sub(sub.channel)
    ensures InStep(inbox, Deleted(cases, index), live - {sub}, leaving - {sub}, next, gone + {sub})
    ensures InStep(inbox, Deleted(cases, index), live - {sub}, leaving - {sub}, next, gone)
  {
    StillThere(live, leaving, inbox, cases, sub);
    var found := Find(cases, Sub(sub.channel));
    index := found;
    LeftCases(live, leaving, inbox, cases, sub, index);
    StaysDistinct(live, gone, next, sub);
  }

  /** How much is left to do for the sender: falls lexicographically with each of its steps. */
  datatype Work = Work(cases: nat, pass: nat)

  ghost predicate LessWork(after: Work, before: Work) {
    after.cases < before.cases || (after.cases == before.cases && after.pass < before.pass)
  }

  class Feed {
    var inbox: seq<Case>
    var sendCases: seq<Case>
    var phase: Phase
    var nsent: nat
    /** Who has subscribed and not been removed yet; who of them has looked in the inbox in vain. */
    var live: set<Subscription>
    var leaving: set<Subscription>
    var next: nat
    ghost var delivery: Delivery

    ghost predicate Valid()
      reads this
    {
      InStep(inbox, sendCases, live, leaving, next, delivery.gone) && Underway()
    }

    /** While a value is sent, the cases are partitioned, and exactly who is handed over is taken out. */
    ghost predicate Underway()
      reads this
    {
      match phase
      case Idle => true
      case Locked => true
      case Trying(n, i) => 1 <= i <= n && Partitioned(n)
      case Waiting(n) => 1 < n && Partitioned(n)
    }

    ghost predicate Partitioned(n: nat)
      reads this
    {
      nsent == |delivery.sent| && Divides(sendCases, n, delivery)
    }

    ghost function Now(): Moment
      reads this
    {
      Moment(phase, live, leaving, nsent, delivery)
    }

    ghost function Left(): Work
      reads this
    {
      match phase
      case Idle => Work(0, 0)
      case Locked => Work(0, 0)
      case Trying(n, i) => Work(|sendCases| + n, if i <= n then n - i + 1 else 0)
      case Waiting(n) => Work(|sendCases| + n, 0)
    }

    constructor ()
      ensures Valid() && live == leaving == {} && phase == Idle && nsent == 0
    {
      inbox, sendCases, phase, nsent := [], [RemoveSub], Idle, 0;
      live, leaving, next := {}, {}, 0;
      delivery := Delivery({}, {}, multiset{}, multiset{}, multiset{}, multiset{});
    }

    /** A subscriber's only access: its case goes to the inbox, even in the middle of a send. */
    method Subscribe(channel: nat) returns (sub: Subscription)
      requires Valid()
      modifies `inbox, `live, `next
      ensures Valid() && sub.channel == channel && sub !in old(live) && live == old(live) + {sub}
      ensures Moved(old(Now()), Subscribes(channel), Now())
    {
      sub := Subscription(next, channel);
      Joined(live, leaving, inbox, sendCases, sub);
      inbox, live, next := inbox + [Sub(channel)], live + {sub}, next + 1;
    }

    /** The first access of an unsubscriber; without success it has to wait for the send lock or a sender. */
    method CheckInbox(sub: Subscription) returns (done: bool)
      requires Valid() && sub in live - leaving
      modifies `inbox, `live, `leaving
      ensures Valid() && done == (Sub(sub.channel) in old(inbox))
      ensures done ==> live == old(live) - {sub} && leaving == old(leaving)
      ensures !done ==> inbox == old(inbox) && live == old(live) && leaving == old(leaving) + {sub}
      ensures Moved(old(Now()), Unsubscribes(sub), Now())
    {
      var index := Find(inbox, Sub(sub.channel));
      done := index != -1;
      if done {
        LeftInbox(live, leaving, inbox, sendCases, sub, index);
        inbox, live := Deleted(inbox, index), live - {sub};
      } else {
        PassedInbox(live, leaving, inbox, sendCases, sub);
        leaving := leaving + {sub};
      }
    }

    /** The second access, with the send lock: the case is found, and not in the first place. */
    method RemoveLocked(sub: Subscription) returns (index: nat)
      requires Valid() && phase == Idle && sub in leaving
      modifies `sendCases, `live, `leaving
      ensures Valid() && 0 < index < |old(sendCases)| && sendCases == Deleted(old(sendCases), index)
      ensures live == old(live) - {sub} && leaving == old(leaving) - {sub}
      ensures Moved(old(Now()), RemovesLocked(sub), Now())
    {
      index := Locate(sendCases, sub, inbox, live, leaving, next, delivery.gone);
      sendCases, live, leaving := Deleted(sendCases, index), live - {sub}, leaving - {sub};
    }

    method TakeLock()
      requires Valid() && phase == Idle
      modifies `phase
      ensures Valid() && phase == Locked
      ensures Moved(old(Now()), SendBegins, Now())
    {
      phase := Locked;
    }

    /** Takes in the inbox: the value is addressed to everyone who is live now. */
    method CollectInbox()
      requires Valid() && phase == Locked
      modifies `inbox, `sendCases, `phase, `nsent, `delivery
      ensures Valid() && phase == Trying(|sendCases|, 1) && inbox == [] && nsent == 0
      ensures delivery.present == live && delivery.gone == {} && delivery.sent == multiset{}
      ensures CasesOf(delivery.audience, live)
      ensures Moved(old(Now()), SendCollects, Now())
    {
      Collected(live, leaving, inbox, sendCases);
      sendCases, inbox, nsent := sendCases + inbox, [], 0;
      phase := Trying(|sendCases|, 1);
      delivery := Delivery(live, {}, multiset(sendCases[1..]), multiset{}, multiset{}, multiset{});
    }

    /** One non-blocking attempt of the fast path. */
    method TrySend(ready: bool)
      requires Valid() && phase.Trying? && phase.i < phase.n
      modifies `sendCases, `phase, `nsent, `delivery
      ensures Valid() && phase.Trying? && LessWork(Left(), old(Left()))
      ensures phase == if ready then Trying(old(phase).n - 1, old(phase).i) else Trying(old(phase).n, old(phase).i + 1)
      ensures nsent == old(nsent) + if ready then 1 else 0
      ensures if ready then Reached(old(delivery), delivery, old(sendCases)[old(phase).i])
                else delivery == old(delivery)
      ensures Moved(old(Now()), SendTries(ready), Now())
    {
      if ready {
        Deliver(phase.n, phase.i, phase.i);
      } else {
        phase := phase.(i := phase.i + 1);
      }
    }

    /** A receiver takes the value, and the fast path goes on from `i`. */
    method Deliver(n: nat, index: nat, i: nat)
      requires InStep(inbox, sendCases, live, leaving, next, delivery.gone) && Partitioned(n)
      requires 0 < index < n && 1 <= i < n
      modifies `sendCases, `phase, `nsent, `delivery
      ensures Valid() && phase == Trying(n - 1, i) && |sendCases| == |old(sendCases)|
      ensures Reached(old(delivery), delivery, old(sendCases)[index]) && Delivers(old(Now()), Now(), Trying(n - 1, i))
    {
      sendCases, delivery := Deactivate(sendCases, n, index, inbox, live, leaving, next, delivery);
      nsent, phase := nsent + 1, Trying(n - 1, i);
    }

    /** The fast path is over: done if no active case is left, else the sender blocks. */
    method EndPass() returns (done: bool)
      requires Valid() && phase.Trying? && phase.i == phase.n
      modifies `phase
      ensures Valid() && done == (old(phase).n == 1)
      ensures done ==> phase == Idle && Complete(delivery) && nsent == |delivery.sent|
      ensures done ==> multiset(sendCases[1..]) + delivery.dropped + delivery.removed == delivery.audience
      ensures (!done ==> phase == Waiting(old(phase).n)) && LessWork(Left(), old(Left()))
      ensures Moved(old(Now()), PassEnds, Now())
    {
      done := phase.n == 1;
      if done {
        assert sendCases[1..1] == [];
        phase := Idle;
      } else {
        phase := Waiting(phase.n);
      }
    }

    /** The select chooses a receiver that became ready. */
    method ChooseReceiver(chosen: nat)
      requires Valid() && phase.Waiting? && 0 < chosen < phase.n
      modifies `sendCases, `phase, `nsent, `delivery
      ensures Valid() && phase == Trying(old(phase).n - 1, 1) && LessWork(Left(), old(Left()))
      ensures nsent == old(nsent) + 1 && Reached(old(delivery), delivery, old(sendCases)[chosen])
      ensures Moved(old(Now()), ReceiverChosen(chosen), Now())
    {
      Deliver(phase.n, chosen, 1);
    }

    /** The select receives the channel of an unsubscriber: its case is found, and not in the first place. */
    method HandOver(sub: Subscription) returns (index: nat)
      requires Valid() && phase.Waiting? && sub in leaving
      modifies `sendCases, `phase, `live, `leaving, `delivery
      ensures Valid() && LessWork(Left(), old(Left()))
      ensures phase == Trying(if index < old(phase).n then old(phase).n - 1 else old(phase).n, 1)
      ensures 0 < index < |old(sendCases)| && sendCases == Deleted(old(sendCases), index)
      ensures live == old(live) - {sub} && leaving == old(leaving) - {sub}
      ensures delivery == TookOut(old(delivery), sub, index < old(phase).n)
      ensures Moved(old(Now()), RemovalReceived(sub), Now())
    {
      var n := phase.n;
      index := Locate(sendCases, sub, inbox, live, leaving, next, delivery.gone);
      TookOutDivides(sendCases, n, delivery, sub, index);
      TakeOut(sub, n, index);
      phase := Trying(if index < n then n - 1 else n, 1);
    }

    /** Takes a case out of the list in the middle of a send. */
    method TakeOut(sub: Subscription, n: nat, index: nat)
      requires index < |sendCases|
      modifies `sendCases, `live, `leaving, `delivery
      ensures sendCases == Deleted(old(sendCases), index) && delivery == TookOut(old(delivery), sub, index < n)
      ensures live == old(live) - {sub} && leaving == old(leaving) - {sub}
      ensures delivery.gone == old(delivery.gone) + {sub} && delivery.sent == old(delivery.sent)
      ensures delivery.present == old(delivery.present)
    {
      delivery := TookOut(delivery, sub, index < n);
      sendCases, live, leaving := Deleted(sendCases, index), live - {sub}, leaving - {sub};
    }
  }

  lemma SameContents(cases: seq<Case>, n: nat, index: nat)
    requires index < n <= |cases|
    ensures multiset(Deactivated(cases, n, index)) == multiset(cases)
  {
  }

  /** One access by a subscriber, an unsubscriber or the sender that holds the lock. */
  datatype Step =
    | Subscribes(channel: nat)
    | Unsubscribes(sub: Subscription)
    | RemovesLocked(sub: Subscription)
    | SendBegins
    | SendCollects
    | SendTries(ready: bool)
    | PassEnds
    | ReceiverChosen(chosen: nat)
    | RemovalReceived(sub: Subscription)

  predicate Possible(feed: Feed, step: Step)
    reads feed
  {
    PossibleIn(feed.phase, feed.live, feed.leaving, step)
  }

  predicate PossibleIn(phase: Phase, live: set<Subscription>, leaving: set<Subscription>, step: Step) {
    match step
    case Subscribes(_) => true
    case Unsubscribes(sub) => sub in live - leaving
    case RemovesLocked(sub) => phase == Idle && sub in leaving
    case SendBegins => phase == Idle
    case SendCollects => phase == Locked
    case SendTries(_) => phase.Trying? && phase.i < phase.n
    case PassEnds => phase.Trying? && phase.i == phase.n
    case ReceiverChosen(chosen) => phase.Waiting? && 0 < chosen < phase.n
    case RemovalReceived(sub) => phase.Waiting? && sub in leaving
  }

  /** What one sees of a feed: where the sender stands, who is live and who of them leaves, and what it did so far. */
  datatype Moment = Moment(phase: Phase, live: set<Subscription>, leaving: set<Subscription>, nsent: nat,
                           delivery: Delivery)

  /** What each step changes. */
  ghost predicate Moved(before: Moment, step: Step, after: Moment) {
    match step
    case Subscribes(channel) =>
      && after == before.(live := after.live) && before.live < after.live
      && forall sub :: sub in after.live - before.live ==> sub.channel == channel
    case Unsubscribes(sub) =>
      after == before.(live := before.live - {sub}) || after == before.(leaving := before.leaving + {sub})
    case RemovesLocked(sub) =>
      before.phase == Idle && after == before.(live := before.live - {sub}, leaving := before.leaving - {sub})
    case SendBegins => before.phase == Idle && after == before.(phase := Locked)
    case SendCollects =>
      && before.phase == Locked && after.phase.Trying? && after.phase.i == 1 && after.nsent == 0
      && after.live == before.live && after.leaving == before.leaving
      && after.delivery.present == before.live && after.delivery.gone == {} && after.delivery.sent == multiset{}
    case SendTries(ready) =>
      && before.phase.Trying? && before.phase.i < before.phase.n
      && (if ready then Delivers(before, after, Trying(before.phase.n - 1, before.phase.i))
          else after == before.(phase := Trying(before.phase.n, before.phase.i + 1)))
    case PassEnds =>
      && before.phase.Trying? && after == before.(phase := after.phase)
      && (if before.phase.n == 1 then after.phase == Idle && Complete(after.delivery)
          else after.phase == Waiting(before.phase.n))
      && after.nsent == |after.delivery.sent|
    case ReceiverChosen(chosen) =>
      before.phase.Waiting? && chosen < before.phase.n && Delivers(before, after, Trying(before.phase.n - 1, 1))
    case RemovalReceived(sub) =>
      && before.phase.Waiting? && after.phase.Trying? && after.phase.i == 1 && sub in before.live
      && after.live == before.live - {sub} && after.leaving == before.leaving - {sub}
      && after.nsent == before.nsent && after.delivery.present == before.delivery.present
      && after.delivery.gone == before.delivery.gone + {sub} && after.delivery.sent == before.delivery.sent
  }

  /** One more receiver got the value. */
  ghost predicate Delivers(before: Moment, after: Moment, phase: Phase) {
    && after == Moment(phase, before.live, before.leaving, before.nsent + 1, after.delivery)
    && after.delivery == before.delivery.(sent := after.delivery.sent) && before.delivery.sent <= after.delivery.sent
  }

  predicate IsSenders(step: Step) {
    step.SendTries? || step.PassEnds? || step.ReceiverChosen? || step.RemovalReceived?
  }

  /** A step of a sender under way: leaves it less to do. */
  method TakeSenders(feed: Feed, step: Step)
    requires feed.Valid() && Possible(feed, step) && IsSenders(step)
    modifies feed
    ensures feed.Valid() && Moved(old(feed.Now()), step, feed.Now()) && LessWork(feed.Left(), old(feed.Left()))
  {
    match step {
      case SendTries(ready) => feed.TrySend(ready);
      case PassEnds => var _ := feed.EndPass();
      case ReceiverChosen(chosen) => feed.ChooseReceiver(chosen);
      case RemovalReceived(sub) => var _ := feed.HandOver(sub);
    }
  }

  /** Any other step; those of subscribers and unsubscribers do not add to what a sender has to do. */
  method TakeOther(feed: Feed, step: Step)
    requires feed.Valid() && Possible(feed, step) && !IsSenders(step)
    modifies feed
    ensures feed.Valid() && Moved(old(feed.Now()), step, feed.Now())
    ensures step.Subscribes? || step.Unsubscribes? ==> feed.phase == old(feed.phase) && feed.Left() == old(feed.Left())
  {
    match step {
      case Subscribes(channel) => var _ := feed.Subscribe(channel);
      case Unsubscribes(sub) => var _ := feed.CheckInbox(sub);
      case RemovesLocked(sub) => var _ := feed.RemoveLocked(sub);
      case SendBegins => feed.TakeLock();
      case SendCollects => feed.CollectInbox();
    }
  }

  /** A step that is not possible when its turn comes is passed over. */
  ghost predicate Stepped(before: Moment, step: Step, after: Moment) {
    if PossibleIn(before.phase, before.live, before.leaving, step) then Moved(before, step, after) else after == before
  }

  /** The moments between the first `n` steps. */
  ghost predicate Traced(steps: seq<Step>, trace: seq<Moment>, n: nat) {
    && n <= |steps| && |trace| == n + 1 && trace[0].phase == Idle && trace[0].live == trace[0].leaving == {}
    && forall i :: 0 <= i < n ==> Stepped(trace[i], steps[i], trace[i + 1])
  }

  ghost predicate Busy(phase: Phase) {
    phase.Trying? || phase.Waiting?
  }

  /** Step `i` ends a send. */
  ghost predicate Ends(trace: seq<Moment>, i: nat)
    requires i + 1 < |trace|
  {
    Busy(trace[i].phase) && trace[i + 1].phase == Idle
  }

  /** Who was handed over to the sender by the steps from `from` on. */
  ghost function Left(steps: seq<Step>, trace: seq<Moment>, from: nat, to: nat): set<Subscription>
    requires from <= to <= |steps| && to < |trace|
  {
    if from == to then {} else
      var step := steps[to - 1];
      Left(steps, trace, from, to - 1) +
      if step.RemovalReceived? && trace[to] != trace[to - 1] then {step.sub} else {}
  }

  /** The value that is being sent after `i` steps was addressed to who was live when step `c` collected the inbox. */
  ghost predicate SentSince(steps: seq<Step>, trace: seq<Moment>, c: nat, i: nat)
    requires i <= |steps| && i < |trace|
  {
    && c < i && trace[c].phase == Locked && (forall k :: c < k <= i ==> Busy(trace[k].phase))
    && trace[i].delivery.present == trace[c].live && trace[i].delivery.gone == Left(steps, trace, c + 1, i)
  }

  /** Only collecting the inbox makes a sender busy, and only a hand-over changes who is gone. */
  lemma BusyStep(before: Moment, step: Step, after: Moment)
    requires Moved(before, step, after) && Busy(after.phase)
    ensures if !Busy(before.phase) then
              before.phase == Locked && after.delivery.present == before.live && after.delivery.gone == {}
            else
              && after.delivery.present == before.delivery.present
              && after.delivery.gone == before.delivery.gone + (if step.RemovalReceived? then {step.sub} else {})
              && (step.RemovalReceived? ==> after != before)
  {
  }

  lemma {:induction false} BusySince(steps: seq<Step>, trace: seq<Moment>, n: nat, i: nat) returns (c: nat)
    requires Traced(steps, trace, n) && i <= n && Busy(trace[i].phase)
    ensures SentSince(steps, trace, c, i)
  {
    var before, after := trace[i - 1], trace[i];
    assert Stepped(before, steps[i - 1], after);
    if after != before {
      BusyStep(before, steps[i - 1], after);
    }
    if Busy(before.phase) {
      c := BusySince(steps, trace, n, i - 1);
      assert Left(steps, trace, c + 1, i) == Left(steps, trace, c + 1, i - 1) +
        if steps[i - 1].RemovalReceived? && after != before then {steps[i - 1].sub} else {};
    } else {
      c := i - 1;
    }
  }

  /**
   * A send that ends with step `i` reached exactly one case for each who was live when it collected
   * the inbox, except for those that were taken out before their turn, and for each who was handed
   * over to it since, one case was taken out; its result is the number of cases reached.
   */
  ghost predicate EndsWell(steps: seq<Step>, trace: seq<Moment>, i: nat)
    requires i < |steps| && i + 1 < |trace|
  {
    && Complete(trace[i + 1].delivery) && trace[i + 1].nsent == |trace[i + 1].delivery.sent|
    && trace[i + 1].delivery == trace[i].delivery && exists c :: SentSince(steps, trace, c, i)
  }

  lemma SendsEndWell(steps: seq<Step>, trace: seq<Moment>, n: nat, i: nat)
    requires Traced(steps, trace, n) && i < n && Ends(trace, i)
    ensures EndsWell(steps, trace, i)
  {
    var c := BusySince(steps, trace, n, i);
    assert Stepped(trace[i], steps[i], trace[i + 1]);
  }

  /** Every interleaving of the steps: nobody is lost or found twice, and every send that ends does so well. */
  method Interleave(steps: seq<Step>) returns (feed: Feed, ghost trace: seq<Moment>)
    ensures fresh(feed) && feed.Valid()
    ensures Traced(steps, trace, |steps|) && trace[|steps|] == feed.Now()
    ensures forall i: nat {:trigger Ends(trace, i)} :: i < |steps| && Ends(trace, i) ==> EndsWell(steps, trace, i)
  {
    feed := new Feed();
    trace := [feed.Now()];
    for i := 0 to |steps|
      invariant fresh(feed) && feed.Valid()
      invariant Traced(steps, trace, i) && trace[i] == feed.Now()
    {
      if Possible(feed, steps[i]) {
        if IsSenders(steps[i]) {
          TakeSenders(feed, steps[i]);
        } else {
          TakeOther(feed, steps[i]);
        }
      }
      trace := trace + [feed.Now()];
    }
    forall i: nat | i < |steps| && Ends(trace, i) ensures EndsWell(steps, trace, i) {
      SendsEndWell(steps, trace, |steps|, i);
    }
  }

  /**
   * Nobody waits in vain: a sender that goes on by itself, whichever receivers are ready, comes to
   * where an unsubscriber past the inbox can go on.
   */
  method GivesWay(feed: Feed, sub: Subscription)
    requires feed.Valid() && sub in feed.leaving
    modifies feed
    ensures feed.Valid() && sub in feed.leaving
    ensures Possible(feed, RemovesLocked(sub)) || Possible(feed, RemovalReceived(sub))
  {
    if feed.phase == Locked {
      TakeOther(feed, SendCollects);
    }
    while feed.phase.Trying?
      invariant feed.Valid() && sub in feed.leaving && feed.phase != Locked
      decreases feed.Left().cases, feed.Left().pass
    {
      FastPath(feed);
    }
    if feed.phase == Idle {
      assert Possible(feed, RemovesLocked(sub));
    } else {
      assert Possible(feed, RemovalReceived(sub));
    }
  }

  /** The next step of the fast path, whether or not the receiver is ready. */
  method FastPath(feed: Feed)
    requires feed.Valid() && feed.phase.Trying?
    modifies feed
    ensures feed.Valid() && feed.leaving == old(feed.leaving) && LessWork(feed.Left(), old(feed.Left()))
    ensures feed.phase != Locked
  {
    var ready: bool := *;
    var step := if feed.phase.i < feed.phase.n then SendTries(ready) else PassEnds;
    TakeSenders(feed, step);
  }
}
