/**
 * Gas and fee accounting of a state transition. The virtual machine is a function that is
 * handed the gas left and the balances; it gives back no more gas than it got and keeps the
 * total of all balances.
 */
module GasAccounting {
  import opened Basics
  import opened Sums

  datatype Origin = Sequencer | L1

  type Balances = map<nat, nat>

  datatype Message = Message(from: nat, nonce: nat, checkNonce: bool, gas: nat, price: nat, value: nat, creation: bool,
                             data: seq<bv8>, origin: Origin, l1Fee: nat, l1FeeInL2: nat)

  /** What the chain configuration and the block fix; `skipped` is the extra charge in two particular blocks. */
  datatype Rules = Rules(usingOVM: bool, shanghai: bool, homestead: bool, istanbul: bool, coinbase: nat, skipped: bool)

  datatype Outcome = Outcome(balances: Balances, gas: nat, refund: nat, error: VmError)

  datatype VmError = NoError | InsufficientBalance | OtherError

  datatype Error = NonceTooHigh | NonceTooLow | InsufficientBalanceForGas | GasLimitReached | OutOfGas
                 | VmInsufficientBalance

  datatype World = World(balances: Balances, nonces: map<nat, nat>)

  function BalanceOf(b: Balances, a: nat): nat {
    if a in b then b[a] else 0
  }

  function NonceOf(w: World, a: nat): nat {
    if a in w.nonces then w.nonces[a] else 0
  }

  function AddBalance(b: Balances, a: nat, amount: nat): (r: Balances)
    ensures Sum(r) == Sum(b) + amount
  {
    SumPut(b, a, BalanceOf(b, a) + amount);
    b[a := BalanceOf(b, a) + amount]
  }

  function SubBalance(b: Balances, a: nat, amount: nat): (r: Balances)
    requires amount <= BalanceOf(b, a)
    ensures Sum(r) + amount == Sum(b)
  {
    SumPut(b, a, BalanceOf(b, a) - amount);
    b[a := BalanceOf(b, a) - amount]
  }

  ghost predicate Conserves(vm: (Balances, nat) -> Outcome) {
    forall b: Balances, gas: nat :: vm(b, gas).gas <= gas && Sum(vm(b, gas).balances) == Sum(b)
  }

  function NonZeros(data: seq<bv8>): nat {
    if data == [] then 0 else NonZeros(data[..|data| - 1]) + if data[|data| - 1] != 0 then 1 else 0
  }

  lemma {:induction false} NonZerosBound(data: seq<bv8>)
    ensures NonZeros(data) <= |data|
  {
    if data != [] {
      NonZerosBound(data[..|data| - 1]);
    }
  }

  /** The intrinsic gas without regard to the width of integers. */
  function IntrinsicCost(data: seq<bv8>, creation: bool, homestead: bool, eip2028: bool): int {
    (if creation && homestead then 53000 else 21000)
    + (if eip2028 then 16 else 68) * NonZeros(data) + 4 * (|data| - NonZeros(data))
  }

  /** The computation in 64 bits gives up exactly if the result does not fit. */
  method IntrinsicGas(data: seq<bv8>, creation: bool, homestead: bool, eip2028: bool) returns (r: Option<nat>)
    requires |data| <= 0xFFFF_FFFF_FFFF_FFFF
    ensures var cost := IntrinsicCost(data, creation, homestead, eip2028);
            0 <= cost && (r.Some? <==> cost <= 0xFFFF_FFFF_FFFF_FFFF) && (r.Some? ==> r.value == cost)
  {
    var gas: nat := if creation && homestead then 53000 else 21000;
    NonZerosBound(data);
    if 0 < |data| {
      var nz: nat := 0;
      assert data[..|data|] == data;
      for i := 0 to |data|
        invariant nz == NonZeros(data[..i])
      {
        assert data[..i + 1][..i] == data[..i];
        if data[i] != 0 {
          nz := nz + 1;
        }
      }
      var nonZeroGas := if eip2028 then 16 else 68;
      if (0xFFFF_FFFF_FFFF_FFFF - gas) / nonZeroGas < nz {
        return None;
      }
      gas := gas + nz * nonZeroGas;
      var z := |data| - nz;
      if (0xFFFF_FFFF_FFFF_FFFF - gas) / 4 < z {
        return None;
      }
      gas := gas + z * 4;
    }
    r := Some(gas);
  }

  datatype Result = Rejected(error: Error) | Applied(used: nat, failed: bool)

  class GasPool {
    var gas: nat

    constructor (limit: nat)
      requires limit <= 0xFFFF_FFFF_FFFF_FFFF
      ensures gas == limit
    {
      gas := limit;
    }

    /** Going beyond 64 bits would be a panic. */
    method AddGas(amount: nat)
      requires gas + amount <= 0xFFFF_FFFF_FFFF_FFFF
      modifies this
      ensures gas == old(gas) + amount
    {
      gas := gas + amount;
    }

    method SubGas(amount: nat) returns (ok: bool)
      modifies this
      ensures ok <==> amount <= old(gas)
      ensures gas == if ok then old(gas) - amount else old(gas)
    {
      ok := amount <= gas;
      if ok {
        gas := gas - amount;
      }
    }
  }

  /** The L1 fee that the sender is charged. */
  function ChargedL1(msg: Message, rules: Rules): nat {
    if rules.usingOVM && rules.shanghai && msg.origin == Sequencer then msg.l1Fee else 0
  }

  /** What the sender pays in advance: the whole balance, if it is too little and the rules allow that. */
  function Prepaid(balance: nat, msg: Message, rules: Rules): Option<nat> {
    var due := msg.gas * msg.price + ChargedL1(msg, rules);
    if due <= balance then Some(due)
    else if !rules.shanghai && rules.usingOVM then Some(balance)
    else None
  }

  /** The balances once the sender has paid in advance. */
  function Charged(b: Balances, msg: Message, rules: Rules): (r: Balances)
    requires Prepaid(BalanceOf(b, msg.from), msg, rules).Some?
    ensures Sum(r) + Prepaid(BalanceOf(b, msg.from), msg, rules).value == Sum(b)
  {
    SubBalance(b, msg.from, Prepaid(BalanceOf(b, msg.from), msg, rules).value)
  }

  /** The fee that the coinbase is credited with. */
  function Fee(msg: Message, rules: Rules, used: nat): nat {
    used * msg.price + if rules.shanghai && rules.usingOVM then msg.l1Fee else 0
  }

  /** The balances once the sender got the unused gas back and the coinbase its fee. */
  function Settled(b: Balances, msg: Message, rules: Rules, used: nat): (r: Balances)
    requires used <= msg.gas
    ensures Sum(r) == Sum(b) + (msg.gas - used) * msg.price + Fee(msg, rules, used)
  {
    AddBalance(AddBalance(b, msg.from, (msg.gas - used) * msg.price), rules.coinbase, Fee(msg, rules, used))
  }

  /** The gas a run of the virtual machine costs: at most half of it comes back as a refund. */
  function UsedGas(initial: nat, left: nat, counter: nat): nat
    requires left <= initial
  {
    initial - left - if counter < (initial - left) / 2 then counter else (initial - left) / 2
  }

  /** The part of the fee that nobody paid. */
  function Shortfall(balance: nat, msg: Message, rules: Rules): nat {
    if rules.usingOVM && !rules.shanghai && balance < msg.gas * msg.price then msg.gas * msg.price - balance else 0
  }

  /** The L1 fee that the sequencer is credited with although the sender was not charged. */
  function Surplus(msg: Message, rules: Rules): nat {
    if rules.usingOVM && rules.shanghai && msg.origin == L1 then msg.l1Fee else 0
  }

  /** Ether that a successful message brings into being. */
  function Minted(balance: nat, msg: Message, rules: Rules): nat {
    Shortfall(balance, msg, rules) + Surplus(msg, rules)
  }

  /** The nonce counts unless the message came through L1. */
  predicate ChecksNonce(msg: Message, rules: Rules) {
    msg.checkNonce && !(rules.usingOVM && msg.origin == L1)
  }

  /** The gas of the message can be bought: right nonce, enough ether, and enough gas left in the block. */
  ghost predicate Buyable(w: World, pool: nat, msg: Message, rules: Rules) {
    && (ChecksNonce(msg, rules) ==> NonceOf(w, msg.from) == msg.nonce)
    && Prepaid(BalanceOf(w.balances, msg.from), msg, rules).Some? && msg.gas <= pool
  }

  /** The message can be run: its gas covers the intrinsic cost, and its sender has the value it sends. */
  ghost predicate Runnable(w: World, pool: nat, msg: Message, rules: Rules) {
    && Buyable(w, pool, msg, rules)
    && IntrinsicCost(msg.data, msg.creation, rules.homestead, rules.istanbul) <= msg.gas
    && (msg.checkNonce ==> msg.value <= BalanceOf(Charged(w.balances, msg, rules), msg.from))
  }

  /** Before Shanghai: a transfer from the zero address that is not run at all. */
  predicate NotRun(msg: Message, rules: Rules) {
    !rules.shanghai && 0 < msg.value && !msg.checkNonce && msg.from == 0
  }

  /**
   * What executing the message comes to. Before Shanghai the L1 fee is taken out of the gas
   * first, and nothing is run if it does not cover that.
   */
  function Executed(b: Balances, gas: nat, msg: Message, rules: Rules, vm: (Balances, nat) -> Outcome): Outcome {
    var fee := if rules.shanghai then 0 else msg.l1FeeInL2;
    if gas < fee then Outcome(b, gas, 0, OtherError)
    else if NotRun(msg, rules) then
      if gas - fee < 12 then Outcome(b, gas - fee, 0, OtherError) else Outcome(b, gas - fee - 12, 0, NoError)
    else
      var extra := if !rules.shanghai && rules.skipped && 100000 <= gas - fee then 100000 else 0;
      vm(b, gas - fee - extra)
  }

  lemma ExecutedConserves(b: Balances, gas: nat, msg: Message, rules: Rules, vm: (Balances, nat) -> Outcome)
    requires Conserves(vm)
    ensures var out := Executed(b, gas, msg, rules, vm); out.gas <= gas && Sum(out.balances) == Sum(b)
  {
  }

  /** The sender's nonce goes up, except where the machine does that itself or nothing is run. */
  function NonceAfter(w: World, gas: nat, msg: Message, rules: Rules): nat {
    if !rules.shanghai && gas < msg.l1FeeInL2 then NonceOf(w, msg.from) + 1
    else if NotRun(msg, rules) || msg.creation then NonceOf(w, msg.from)
    else NonceOf(w, msg.from) + 1
  }

  lemma FeesAddUp(price: nat, left: nat, used: nat)
    ensures left * price + used * price == (left + used) * price
  {
  }

  class StateTransition {
    const gp: GasPool
    const msg: Message
    const rules: Rules
    var gas: nat
    var initialGas: nat
    var world: World

    constructor (gp: GasPool, msg: Message, rules: Rules, world: World)
      ensures this.gp == gp && this.msg == msg && this.rules == rules && gas == 0 && initialGas == 0
      ensures this.world == world
    {
      this.gp, this.msg, this.rules, this.world := gp, msg, rules, world;
      gas, initialGas := 0, 0;
    }

    method UseGas(amount: nat) returns (ok: bool)
      modifies this`gas
      ensures ok <==> amount <= old(gas)
      ensures gas == if ok then old(gas) - amount else old(gas)
    {
      ok := amount <= gas;
      if ok {
        gas := gas - amount;
      }
    }

    method BuyGas() returns (error: Option<Error>)
      requires gas == 0
      modifies this, gp
      ensures error.None? ==>
                && Prepaid(BalanceOf(old(world).balances, msg.from), msg, rules).Some? && msg.gas <= old(gp.gas)
                && gas == initialGas == msg.gas && gp.gas == old(gp.gas) - msg.gas
                && world == old(world).(balances := Charged(old(world).balances, msg, rules))
      ensures error.Some? ==> world == old(world) && gp.gas == old(gp.gas)
      ensures error.Some? <==>
                Prepaid(BalanceOf(old(world).balances, msg.from), msg, rules).None? || old(gp.gas) < msg.gas
      ensures error.Some? ==> error.value == InsufficientBalanceForGas || error.value == GasLimitReached
    {
      var mgval := msg.gas * msg.price + ChargedL1(msg, rules);
      if BalanceOf(world.balances, msg.from) < mgval {
        if rules.shanghai || !rules.usingOVM {
          return Some(InsufficientBalanceForGas);
        }
        mgval := BalanceOf(world.balances, msg.from);
      }
      var ok := gp.SubGas(msg.gas);
      if !ok {
        return Some(GasLimitReached);
      }
      gas := gas + msg.gas;
      initialGas := msg.gas;
      world := world.(balances := SubBalance(world.balances, msg.from, mgval));
      error := None;
    }

    method PreCheck() returns (error: Option<Error>)
      requires gas == 0
      modifies this, gp
      ensures error.None? <==> Buyable(old(world), old(gp.gas), msg, rules)
      ensures error.None? ==>
                && gas == initialGas == msg.gas && gp.gas == old(gp.gas) - msg.gas
                && world == old(world).(balances := Charged(old(world).balances, msg, rules))
      ensures error.Some? ==> world == old(world) && gp.gas == old(gp.gas)
      ensures error == Some(NonceTooHigh) <==> ChecksNonce(msg, rules) && NonceOf(old(world), msg.from) < msg.nonce
      ensures error == Some(NonceTooLow) <==> ChecksNonce(msg, rules) && msg.nonce < NonceOf(old(world), msg.from)
    {
      if ChecksNonce(msg, rules) {
        var nonce := NonceOf(world, msg.from);
        if nonce < msg.nonce {
          return Some(NonceTooHigh);
        }
        if msg.nonce < nonce {
          return Some(NonceTooLow);
        }
      }
      error := BuyGas();
    }

    /** Gives back the refund, at most half of what was used, and the rest of the gas. */
    method RefundGas(counter: nat)
      requires gas <= initialGas && gp.gas + initialGas <= 0xFFFF_FFFF_FFFF_FFFF
      modifies this, gp
      ensures initialGas == old(initialGas) && gas == initialGas - UsedGas(initialGas, old(gas), counter)
      ensures gas <= initialGas && gp.gas == old(gp.gas) + gas
      ensures world == old(world).(balances := AddBalance(old(world).balances, msg.from, gas * msg.price))
    {
      var refund := (initialGas - gas) / 2;
      if counter < refund {
        refund := counter;
      }
      gas := gas + refund;
      world := world.(balances := AddBalance(world.balances, msg.from, gas * msg.price));
      gp.AddGas(gas);
    }

    /** Runs the message, unless the L1 fee uses up the gas or there is nothing to run. */
    method Execute(vm: (Balances, nat) -> Outcome) returns (error: VmError, counter: nat)
      modifies this`gas, this`world
      ensures Outcome(world.balances, gas, counter, error) == Executed(old(world).balances, old(gas), msg, rules, vm)
      ensures NonceOf(world, msg.from) == NonceAfter(old(world), old(gas), msg, rules)
      ensures forall a :: a != msg.from ==> NonceOf(world, a) == NonceOf(old(world), a)
    {
      error, counter := NoError, 0;
      var ok := true;
      if !rules.shanghai {
        ok := UseGas(msg.l1FeeInL2);
      }
      if !ok {
        world := world.(nonces := world.nonces[msg.from := NonceOf(world, msg.from) + 1]);
        error := OtherError;
      } else if NotRun(msg, rules) {
        ok := UseGas(12);
        error := if ok then NoError else OtherError;
      } else {
        if !rules.shanghai && rules.skipped {
          ok := UseGas(100000);
        }
        if !msg.creation {
          world := world.(nonces := world.nonces[msg.from := NonceOf(world, msg.from) + 1]);
        }
        var out := vm(world.balances, gas);
        gas := out.gas;
        world := world.(balances := out.balances);
        error, counter := out.error, out.refund;
      }
    }

    /** Credits the fee to the coinbase. */
    method PayFee()
      requires gas <= initialGas
      modifies this`world
      ensures world ==
                old(world).(balances := AddBalance(old(world).balances, rules.coinbase,
                  Fee(msg, rules, initialGas - gas)))
    {
      var fee := (initialGas - gas) * msg.price;
      if rules.shanghai && rules.usingOVM {
        fee := msg.l1Fee + fee;
      }
      world := world.(balances := AddBalance(world.balances, rules.coinbase, fee));
    }

    /** Everything up to the run of the virtual machine: the charge in advance and the intrinsic gas. */
    method Prepare() returns (error: Option<Error>)
      requires gas == 0 && |msg.data| <= 0xFFFF_FFFF_FFFF_FFFF
      modifies this, gp
      ensures old(gp.gas) <= 0xFFFF_FFFF_FFFF_FFFF ==> (error.None? <==> Runnable(old(world), old(gp.gas), msg, rules))
      ensures error.None? ==>
                var cost := IntrinsicCost(msg.data, msg.creation, rules.homestead, rules.istanbul);
                && Prepaid(BalanceOf(old(world).balances, msg.from), msg, rules).Some?
                && 0 <= cost <= msg.gas <= old(gp.gas)
                && gas == msg.gas - cost && initialGas == msg.gas && gp.gas == old(gp.gas) - msg.gas
                && world == old(world).(balances := Charged(old(world).balances, msg, rules))
    {
      error := PreCheck();
      if error.Some? {
        return;
      }
      var intrinsic := IntrinsicGas(msg.data, msg.creation, rules.homestead, rules.istanbul);
      if intrinsic.None? {
        return Some(OutOfGas);
      }
      var ok := UseGas(intrinsic.value);
      if !ok {
        return Some(OutOfGas);
      }
      if msg.checkNonce && 0 < msg.value && BalanceOf(world.balances, msg.from) < msg.value {
        return Some(VmInsufficientBalance);
      }
    }

    /** Everything after it: the refund and the fee. */
    method Settle(counter: nat)
      requires gas <= initialGas == msg.gas && gp.gas + initialGas <= 0xFFFF_FFFF_FFFF_FFFF
      modifies this, gp
      ensures initialGas == msg.gas && gas == msg.gas - UsedGas(msg.gas, old(gas), counter)
      ensures gp.gas == old(gp.gas) + gas
      ensures world.balances == Settled(old(world).balances, msg, rules, msg.gas - gas)
    {
      RefundGas(counter);
      PayFee();
    }

    /**
     * A message that succeeds takes from the block's gas pool exactly the gas it used, and
     * changes the total of all balances by exactly what `Minted` says. `executed` is what the
     * run of the virtual machine left of the balances.
     */
    method TransitionDb(vm: (Balances, nat) -> Outcome) returns (r: Result, ghost executed: Balances)
      requires Conserves(vm) && gas == 0
      requires gp.gas <= 0xFFFF_FFFF_FFFF_FFFF && |msg.data| <= 0xFFFF_FFFF_FFFF_FFFF
      modifies this, gp
      ensures r.Applied? <==> Applies(old(world), old(gp.gas), msg, rules, vm)
      ensures r.Applied? ==> Ran(old(world).balances, msg, rules, vm, r, executed)
      ensures r.Applied? ==> r.used <= msg.gas && gp.gas + r.used == old(gp.gas)
      ensures r.Applied? ==> world.balances == Settled(executed, msg, rules, r.used)
      ensures r.Applied? ==> IntrinsicCost(msg.data, msg.creation, rules.homestead, rules.istanbul) <= 2 * r.used
      ensures r.Applied? ==>
                Sum(world.balances) ==
                  Sum(old(world).balances) + Minted(BalanceOf(old(world).balances, msg.from), msg, rules)
    {
      executed := world.balances;
      var failure := Prepare();
      if failure.Some? {
        return Rejected(failure.value), executed;
      }
      ExecutedConserves(world.balances, gas, msg, rules, vm);
      var error, counter := Execute(vm);
      if error == InsufficientBalance {
        return Rejected(VmInsufficientBalance), executed;
      }
      executed := world.balances;
      Settle(counter);
      r := Applied(initialGas - gas, error != NoError);
      TotalsAdd(old(world).balances, executed, msg, rules, r.used);
    }
  }

  /** What running the message comes to, on the charged balances and with the gas left over from the intrinsic cost. */
  ghost function RunOf(b: Balances, msg: Message, rules: Rules, vm: (Balances, nat) -> Outcome): Outcome
    requires Prepaid(BalanceOf(b, msg.from), msg, rules).Some?
    requires 0 <= IntrinsicCost(msg.data, msg.creation, rules.homestead, rules.istanbul) <= msg.gas
  {
    Executed(Charged(b, msg, rules),
      msg.gas - IntrinsicCost(msg.data, msg.creation, rules.homestead, rules.istanbul), msg, rules, vm)
  }

  /** A message goes through exactly if it can be run and the machine does not find the balance too low. */
  ghost predicate Applies(w: World, pool: nat, msg: Message, rules: Rules, vm: (Balances, nat) -> Outcome) {
    && Runnable(w, pool, msg, rules) && 0 <= IntrinsicCost(msg.data, msg.creation, rules.homestead, rules.istanbul)
    && RunOf(w.balances, msg, rules, vm).error != InsufficientBalance
  }

  /** The result and the balances in between are those of the run; at most half of the gas used is refunded. */
  ghost predicate Ran(b: Balances, msg: Message, rules: Rules, vm: (Balances, nat) -> Outcome, r: Result,
                      executed: Balances)
    requires r.Applied?
  {
    && Prepaid(BalanceOf(b, msg.from), msg, rules).Some?
    && 0 <= IntrinsicCost(msg.data, msg.creation, rules.homestead, rules.istanbul) <= msg.gas
    && var out := RunOf(b, msg, rules, vm);
       && out.gas <= msg.gas && executed == out.balances && r.failed == (out.error != NoError)
       && r.used == UsedGas(msg.gas, out.gas, out.refund)
  }

  lemma TotalsAdd(b: Balances, executed: Balances, msg: Message, rules: Rules, used: nat)
    requires Prepaid(BalanceOf(b, msg.from), msg, rules).Some? && used <= msg.gas
    requires Sum(executed) + Prepaid(BalanceOf(b, msg.from), msg, rules).value == Sum(b)
    ensures Sum(Settled(executed, msg, rules, used)) == Sum(b) + Minted(BalanceOf(b, msg.from), msg, rules)
  {
    FeesAddUp(msg.price, msg.gas - used, used);
  }

  datatype Receipt = Receipt(cumulative: nat, used: nat, failed: bool)

  /** Each receipt carries the gas used by all transactions up to its own. */
  ghost predicate PrefixSums(receipts: seq<Receipt>, total: nat) {
    && (forall i :: 0 <= i < |receipts| ==> AddsUp(receipts, i))
    && total == CumulativeBefore(receipts, |receipts|)
  }

  ghost predicate AddsUp(receipts: seq<Receipt>, i: nat)
    requires i < |receipts|
  {
    receipts[i].cumulative == CumulativeBefore(receipts, i) + receipts[i].used
  }

  ghost function CumulativeBefore(receipts: seq<Receipt>, i: nat): nat
    requires i <= |receipts|
  {
    if i == 0 then 0 else receipts[i - 1].cumulative
  }

  /** No message of the block can bring ether into being. */
  ghost predicate Neutral(msgs: seq<Message>, rules: Rules) {
    !rules.usingOVM || (rules.shanghai && forall i :: 0 <= i < |msgs| ==> msgs[i].origin == Sequencer)
  }

  lemma NeutralMints(msgs: seq<Message>, rules: Rules, i: nat, balance: nat)
    requires i < |msgs| && Neutral(msgs, rules)
    ensures Minted(balance, msgs[i], rules) == 0
  {
  }

  lemma PrefixNext(receipts: seq<Receipt>, total: nat, r: Receipt)
    requires PrefixSums(receipts, total) && r.cumulative == total + r.used
    ensures PrefixSums(receipts + [r], r.cumulative)
  {
    var more := receipts + [r];
    forall i | 0 <= i < |more| ensures AddsUp(more, i) {
      if i < |receipts| {
        assert AddsUp(receipts, i);
      }
    }
  }

  method ApplyTransaction(gp: GasPool, world0: World, usedGas0: nat, msg: Message, rules: Rules,
                          vm: (Balances, nat) -> Outcome)
    returns (r: Option<Receipt>, world: World, usedGas: nat)
    requires Conserves(vm) && gp.gas + usedGas0 <= 0xFFFF_FFFF_FFFF_FFFF && |msg.data| <= 0xFFFF_FFFF_FFFF_FFFF
    modifies gp
    ensures r.Some? ==>
              gp.gas + usedGas == old(gp.gas) + usedGas0 && r.value.cumulative == usedGas == usedGas0 + r.value.used
    ensures r.Some? ==>
              Sum(world.balances) == Sum(world0.balances) + Minted(BalanceOf(world0.balances, msg.from), msg, rules)
  {
    var st := new StateTransition(gp, msg, rules, world0);
    var result, executed := st.TransitionDb(vm);
    world, usedGas := st.world, usedGas0;
    if result.Rejected? {
      return None, world, usedGas;
    }
    usedGas := usedGas0 + result.used;
    r := Some(Receipt(usedGas, result.used, result.failed));
  }

  /** The ether that the first `n` messages bring into being; `worlds[i]` is the world before message `i`. */
  ghost function MintedBy(worlds: seq<World>, msgs: seq<Message>, rules: Rules, n: nat): nat
    requires n <= |msgs| && n <= |worlds|
  {
    if n == 0 then 0 else
      MintedBy(worlds, msgs, rules, n - 1) + Minted(BalanceOf(worlds[n - 1].balances, msgs[n - 1].from),
        msgs[n - 1], rules)
  }

  lemma {:induction false} MintedBySame(worlds: seq<World>, more: World, msgs: seq<Message>, rules: Rules, n: nat)
    requires n <= |msgs| && n <= |worlds|
    ensures MintedBy(worlds + [more], msgs, rules, n) == MintedBy(worlds, msgs, rules, n)
  {
    if n != 0 {
      MintedBySame(worlds, more, msgs, rules, n - 1);
    }
  }

  lemma {:induction false} NeutralBlock(worlds: seq<World>, msgs: seq<Message>, rules: Rules, n: nat)
    requires n <= |msgs| && n <= |worlds| && Neutral(msgs, rules)
    ensures MintedBy(worlds, msgs, rules, n) == 0
  {
    if n != 0 {
      NeutralBlock(worlds, msgs, rules, n - 1);
      NeutralMints(msgs, rules, n - 1, BalanceOf(worlds[n - 1].balances, msgs[n - 1].from));
    }
  }

  /** The worlds between the first `n` messages, and the total of their balances. */
  ghost predicate Accounts(worlds: seq<World>, msgs: seq<Message>, rules: Rules, n: nat) {
    && n <= |msgs| && |worlds| == n + 1
    && forall i: nat {:trigger MintedBy(worlds, msgs, rules, i)} :: i <= n ==> TotalAt(worlds, msgs, rules, i)
  }

  ghost predicate TotalAt(worlds: seq<World>, msgs: seq<Message>, rules: Rules, i: nat)
    requires i < |worlds| && i <= |msgs|
  {
    Sum(worlds[i].balances) == Sum(worlds[0].balances) + MintedBy(worlds, msgs, rules, i)
  }

  lemma AccountsNext(worlds: seq<World>, msgs: seq<Message>, rules: Rules, n: nat, next: World)
    requires Accounts(worlds, msgs, rules, n) && n < |msgs|
    requires Sum(next.balances) ==
               Sum(worlds[n].balances) + Minted(BalanceOf(worlds[n].balances, msgs[n].from), msgs[n], rules)
    ensures Accounts(worlds + [next], msgs, rules, n + 1)
  {
    var more := worlds + [next];
    forall i: nat | i <= n + 1 ensures TotalAt(more, msgs, rules, i) {
      if i <= n {
        MintedBySame(worlds, next, msgs, rules, i);
        assert TotalAt(worlds, msgs, rules, i);
      } else {
        MintedBySame(worlds, next, msgs, rules, n);
        assert TotalAt(worlds, msgs, rules, n);
      }
    }
  }

  /**
   * A whole block. Whatever its transactions do, the gas left in the pool and the gas used add
   * up to the limit, so that returning gas to the pool never overflows. `worlds` are the worlds
   * between the messages: the total changes by what the messages mint, one by one.
   */
  method Process(limit: nat, world0: World, msgs: seq<Message>, rules: Rules, vm: seq<(Balances, nat) -> Outcome>)
    returns (receipts: Option<seq<Receipt>>, world: World, usedGas: nat, remaining: nat, ghost worlds: seq<World>)
    requires limit <= 0xFFFF_FFFF_FFFF_FFFF && |vm| == |msgs|
    requires forall i :: 0 <= i < |vm| ==> Conserves(vm[i])
    requires forall i :: 0 <= i < |msgs| ==> |msgs[i].data| <= 0xFFFF_FFFF_FFFF_FFFF
    ensures receipts.Some? ==> |receipts.value| == |msgs| && PrefixSums(receipts.value, usedGas)
    ensures receipts.Some? ==> remaining + usedGas == limit
    ensures receipts.Some? ==> Accounts(worlds, msgs, rules, |msgs|) && worlds[0] == world0 && worlds[|msgs|] == world
    ensures receipts.Some? && Neutral(msgs, rules) ==> Sum(world.balances) == Sum(world0.balances)
  {
    var gp := new GasPool(limit);
    var done := [];
    world, usedGas, worlds := world0, 0, [world0];
    for i := 0 to |msgs|
      invariant fresh(gp) && gp.gas + usedGas == limit
      invariant |done| == i && PrefixSums(done, usedGas)
      invariant Accounts(worlds, msgs, rules, i) && worlds[0] == world0 && worlds[i] == world
    {
      var receipt;
      receipt, world, usedGas := ApplyTransaction(gp, world, usedGas, msgs[i], rules, vm[i]);
      if receipt.None? {
        return None, world, 0, gp.gas, worlds;
      }
      AccountsNext(worlds, msgs, rules, i, world);
      PrefixNext(done, receipt.value.cumulative - receipt.value.used, receipt.value);
      worlds, done := worlds + [world], done + [receipt.value];
    }
    if Neutral(msgs, rules) {
      NeutralBlock(worlds, msgs, rules, |msgs|);
    }
    receipts, remaining := Some(done), gp.gas;
  }

  /**
   * The fees of a message as they are computed before its transition, from what the gas oracle
   * would charge: an L1 fee only at a positive gas price, and one in gas only for the sequencer.
   */
  function WithFees(msg: Message, rules: Rules, fee: nat, feeInL2: nat): Message {
    msg.(l1Fee := if rules.usingOVM && msg.price != 0 then fee else 0,
         l1FeeInL2 := if rules.usingOVM && msg.origin == Sequencer then feeInL2 else 0)
  }

  /** A message without a gas price mints nothing. */
  lemma FreeMintsNothing(msg: Message, rules: Rules, fee: nat, feeInL2: nat, balance: nat)
    requires msg.price == 0
    ensures Minted(balance, WithFees(msg, rules, fee, feeInL2), rules) == 0
  {
  }

  /** After Shanghai, a message from L1 whose sender pays for its gas, at an L1 fee of 5, leaves 5 more than before. */
  method SurplusExample() returns (before: Balances, after: Balances)
    ensures Sum(before) == 21000 && Sum(after) == 21005
  {
    var rules := Rules(true, true, true, true, 2, false);
    before, after := Apply(WithFees(Message(1, 0, false, 21000, 1, 0, false, [], L1, 0, 0), rules, 5, 0), rules, 21000);
  }

  /** Before it, so does a sender without a balance who buys gas: 21000 units at a price of 3. */
  method ShortfallExample() returns (before: Balances, after: Balances)
    ensures Sum(before) == 0 && Sum(after) == 63000
  {
    var rules := Rules(true, false, true, true, 2, false);
    before, after := Apply(WithFees(Message(1, 0, false, 21000, 3, 0, false, [], L1, 0, 0), rules, 0, 0), rules, 0);
  }

  /** Applies a message in a world in which only its sender may own something, with a machine that does nothing. */
  method Apply(msg: Message, rules: Rules, balance: nat) returns (before: Balances, after: Balances)
    requires msg.gas == 21000 && msg.data == [] && !msg.creation && !msg.checkNonce && msg.value == 0
    requires Prepaid(balance, msg, rules).Some? && msg.l1FeeInL2 == 0
    ensures Sum(before) == balance && Sum(after) == balance + Minted(balance, msg, rules)
  {
    var gp := new GasPool(21000);
    var vm: (Balances, nat) -> Outcome := (b, gas) => Outcome(b, gas, 0, NoError);
    before := AddBalance(map[], msg.from, balance);
    assert Sum<nat>(map[]) == 0;
    var st := new StateTransition(gp, msg, rules, World(before, map[]));
    var r, executed := st.TransitionDb(vm);
    after := st.world.balances;
  }
}
