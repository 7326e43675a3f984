/** Gas and value accounting of messages and blocks. The fee rule is the
    "Specification" section of EIP-1559, the refund cap that of EIP-3529. */
module StateTransition {
  import opened Options

  const MAX_UINT64: nat := 0xFFFF_FFFF_FFFF_FFFF
  const TX_GAS: nat := 21000
  const TX_GAS_CONTRACT_CREATION: nat := 53000
  const TX_DATA_ZERO_GAS: nat := 4
  const TX_DATA_NON_ZERO_GAS_FRONTIER: nat := 68
  const TX_DATA_NON_ZERO_GAS_EIP2028: nat := 16
  const TX_ACCESS_LIST_ADDRESS_GAS: nat := 2400
  const TX_ACCESS_LIST_STORAGE_KEY_GAS: nat := 1900
  const REFUND_QUOTIENT: nat := 2
  const REFUND_QUOTIENT_EIP3529: nat := 5
  const TWO_256: nat := 0x1_0000_0000_0000_0000_0000_0000_0000_0000_0000_0000_0000_0000_0000_0000_0000_0000

  datatype Error =
    | NonceTooHigh | NonceTooLow | NonceMax | SenderNoEOA
    | FeeCapVeryHigh | TipVeryHigh | TipAboveFeeCap | FeeCapTooLow
    | InsufficientFunds | GasLimitReached
    | GasUintOverflow | IntrinsicGasTooLow | InsufficientFundsForTransfer

  datatype Result<+T> = Ok(value: T) | Err(error: Error)

  // ------------------------------------------------------------------ intrinsic gas

  ghost function NonZeros(data: seq<bv8>): (n: nat)
    ensures n <= |data|
  {
    if data == [] then 0 else NonZeros(data[..|data| - 1]) + if data[|data| - 1] != 0 then 1 else 0
  }

  ghost function Sum(s: seq<nat>): (n: nat)
  {
    if s == [] then 0 else Sum(s[..|s| - 1]) + s[|s| - 1]
  }

  /** The price of the envelope and the payload. */
  ghost function DataGas(data: seq<bv8>, creation: bool, homestead: bool, eip2028: bool): (g: nat)
  {
    (if creation && homestead then TX_GAS_CONTRACT_CREATION else TX_GAS)
    + (if eip2028 then NonZeros(data) * TX_DATA_NON_ZERO_GAS_EIP2028
      else NonZeros(data) * TX_DATA_NON_ZERO_GAS_FRONTIER)
    + (|data| - NonZeros(data)) * TX_DATA_ZERO_GAS
  }

  /** The price of an access list, given the number of storage keys of each entry. */
  ghost function ListGas(list: seq<nat>): (g: nat)
  {
    |list| * TX_ACCESS_LIST_ADDRESS_GAS + Sum(list) * TX_ACCESS_LIST_STORAGE_KEY_GAS
  }

  method CountNonZeros(data: seq<bv8>) returns (nz: nat)
    ensures nz == NonZeros(data)
  {
    nz := 0;
    var i := 0;
    while i < |data|
      invariant 0 <= i <= |data| && nz == NonZeros(data[..i])
    {
      assert data[..i + 1][..i] == data[..i];
      if data[i] != 0 {
        nz := nz + 1;
      }
      i := i + 1;
    }
    assert data[..i] == data;
  }

  method CountKeys(list: seq<nat>) returns (keys: nat)
    ensures keys == Sum(list)
  {
    keys := 0;
    var j := 0;
    while j < |list|
      invariant 0 <= j <= |list| && keys == Sum(list[..j])
    {
      assert list[..j + 1][..j] == list[..j];
      keys := keys + list[j];
      j := j + 1;
    }
    assert list[..j] == list;
  }

  /** The overflow guard by division is exact. */
  lemma {:induction false} GuardExact(room: nat, price: nat, n: nat)
    requires price == 4 || price == 16 || price == 68
    ensures room / price < n <==> room < n * price
  {
    if price == 4 {
    } else if price == 16 {
    } else {
    }
  }

  /** 64-bit wrap-around. */
  function Wrap(x: nat): (r: nat)
    ensures r <= MAX_UINT64 && (r == x <==> x <= MAX_UINT64)
  {
    x % 0x1_0000_0000_0000_0000
  }

  lemma WrapTwice(a: nat, b: nat)
    ensures Wrap(Wrap(a) + b) == Wrap(a + b)
  {
  }

  /** base + n * price, or an overflow error. */
  method Charge(base: nat, price: nat, n: nat) returns (r: Result<nat>)
    requires base <= MAX_UINT64 && (price == 4 || price == 16 || price == 68)
    ensures r == if base + n * price <= MAX_UINT64 then Ok(base + n * price) else Err(GasUintOverflow)
  {
    GuardExact(MAX_UINT64 - base, price, n);
    if (MAX_UINT64 - base) / price < n {
      return Err(GasUintOverflow);
    }
    r := Ok(base + n * price);
  }

  /** 64-bit arithmetic: the payload part is guarded against overflow, the access-list
      part wraps. So the result is the true price if and only if that fits 64 bits. */
  method IntrinsicGas(data: seq<bv8>, list: seq<nat>, creation: bool, homestead: bool, eip2028: bool)
    returns (r: Result<nat>)
    ensures r == Err(GasUintOverflow) <==> DataGas(data, creation, homestead, eip2028) > MAX_UINT64
    ensures r.Ok? || r == Err(GasUintOverflow)
    ensures r.Ok? ==> r.value == Wrap(DataGas(data, creation, homestead, eip2028) + ListGas(list))
    ensures r.Ok? ==> (r.value == DataGas(data, creation, homestead, eip2028) + ListGas(list) <==>
                       DataGas(data, creation, homestead, eip2028) + ListGas(list) <= MAX_UINT64)
  {
    var gas := if creation && homestead then TX_GAS_CONTRACT_CREATION else TX_GAS;
    if |data| > 0 {
      var nz := CountNonZeros(data);
      r := Charge(gas, if eip2028 then TX_DATA_NON_ZERO_GAS_EIP2028 else TX_DATA_NON_ZERO_GAS_FRONTIER, nz);
      if r.Err? {
        return;
      }
      r := Charge(r.value, TX_DATA_ZERO_GAS, |data| - nz);
      if r.Err? {
        return;
      }
      gas := r.value;
    }
    assert gas == DataGas(data, creation, homestead, eip2028);
    var keys := CountKeys(list);
    WrapTwice(gas + |list| * TX_ACCESS_LIST_ADDRESS_GAS, keys * TX_ACCESS_LIST_STORAGE_KEY_GAS);
    gas := Wrap(gas + |list| * TX_ACCESS_LIST_ADDRESS_GAS);
    gas := Wrap(gas + keys * TX_ACCESS_LIST_STORAGE_KEY_GAS);
    r := Ok(gas);
  }

  /** The price is exact up to sizes no message reaches. */
  lemma {:induction false} IntrinsicFits(data: seq<bv8>, list: seq<nat>, creation: bool, homestead: bool, eip2028: bool)
    requires |data| <= 0x4_0000_0000_0000 && |list| <= 0x4_0000_0000_0000 && Sum(list) <= 0x4_0000_0000_0000
    ensures DataGas(data, creation, homestead, eip2028) + ListGas(list) <= MAX_UINT64
  {
    var nz := NonZeros(data);
    assert nz * TX_DATA_NON_ZERO_GAS_EIP2028 <= nz * TX_DATA_NON_ZERO_GAS_FRONTIER;
  }

  /** An access list whose price wraps: one entry with 2^64 / 1900 + 1 storage keys. */
  lemma IntrinsicWrapExample()
    ensures var exact := DataGas([], false, true, true) + ListGas([9708812670373449]);
            DataGas([], false, true, true) <= MAX_UINT64 && Wrap(exact) != exact
  {
    assert Sum([9708812670373449]) == 9708812670373449;
  }

  // ------------------------------------------------------------------------- world

  type Addr = nat

  /** Accounts by address. Balances are big integers, so nothing but the checks keeps
      them from going below zero. */
  datatype World = World(balances: seq<int>, nonces: seq<nat>, hasCode: seq<bool>)

  ghost predicate Sized(w: World, n: nat) {
    |w.balances| == |w.nonces| == |w.hasCode| == n
  }

  ghost function Total(s: seq<int>): (n: int)
  {
    if s == [] then 0 else Total(s[..|s| - 1]) + s[|s| - 1]
  }

  lemma {:induction false} TotalUpdate(s: seq<int>, i: nat, v: int)
    requires i < |s|
    ensures Total(s[i := v]) == Total(s) - s[i] + v
  {
    var n := |s| - 1;
    if i < n {
      TotalUpdate(s[..n], i, v);
      assert s[i := v][..n] == s[..n][i := v];
    } else {
      assert s[i := v][..n] == s[..n];
    }
  }

  function Credit(w: World, a: Addr, amount: int): (r: World)
    requires a < |w.balances|
  {
    w.(balances := w.balances[a := w.balances[a] + amount])
  }

  lemma CreditTotal(w: World, a: Addr, amount: int)
    requires a < |w.balances|
    ensures Total(Credit(w, a, amount).balances) == Total(w.balances) + amount
  {
    TotalUpdate(w.balances, a, w.balances[a] + amount);
  }

  datatype Message = Message(from: Addr, to: Option<Addr>, nonce: nat, gas: nat, gasPrice: nat, feeCap: nat,
                             tipCap: nat, value: nat, data: seq<bv8>, accessList: seq<nat>)

  datatype Env = Env(homestead: bool, istanbul: bool, london: bool, baseFee: nat, coinbase: Addr)

  function Min(a: int, b: int): int {
    if a < b then a else b
  }

  /** The price a transaction's message carries: the effective gas price of EIP-1559
      after London, the one price of a legacy transaction before. */
  ghost predicate Priced(msg: Message, env: Env) {
    if env.london then msg.gasPrice == Min(msg.tipCap + env.baseFee, msg.feeCap) else msg.gasPrice == msg.feeCap
  }

  /** What running the message's code yields; the interpreter is a parameter. */
  datatype Outcome = Outcome(world: World, gasLeft: nat, refund: nat, failed: bool)
  type Evm = (World, nat) -> Outcome

  /** The interpreter moves value between accounts and returns no more gas than it got. */
  ghost predicate Conserving(evm: Evm, n: nat) {
    forall w, g | Sized(w, n) ::
      var o := evm(w, g);
      Sized(o.world, n) && Total(o.world.balances) == Total(w.balances) && o.gasLeft <= g
  }

  // ---------------------------------------------------------------------- the pool

  class GasPool {
    var gas: nat

    constructor ()
      ensures gas == 0
    {
      gas := 0;
    }

    /** The source panics if the pool would exceed 64 bits. */
    method AddGas(amount: nat)
      requires gas + amount <= MAX_UINT64
      modifies this
      ensures gas == old(gas) + amount
    {
      gas := gas + amount;
    }

    method SubGas(amount: nat) returns (ok: bool)
      modifies this
      ensures ok == (amount <= old(gas))
      ensures gas == if ok then old(gas) - amount else old(gas)
    {
      ok := amount <= gas;
      if ok {
        gas := gas - amount;
      }
    }
  }

  class StateDB {
    var world: World

    constructor (w: World)
      ensures world == w
    {
      world := w;
    }
  }

  datatype Execution = Execution(usedGas: nat, failed: bool)

  datatype Receipt = Receipt(gasUsed: nat, cumulative: nat, failed: bool)

  // ----------------------------------------------------------------- one transition

  /** The checks before gas is bought. */
  function PreCheck(w: World, msg: Message, env: Env): (e: Option<Error>)
    requires msg.from < |w.nonces| && msg.from < |w.hasCode|
  {
    if w.nonces[msg.from] < msg.nonce then Some(NonceTooHigh)
    else if w.nonces[msg.from] > msg.nonce then Some(NonceTooLow)
    else if w.nonces[msg.from] >= MAX_UINT64 then Some(NonceMax)
    else if w.hasCode[msg.from] then Some(SenderNoEOA)
    else if !env.london then None
    else if msg.feeCap >= TWO_256 then Some(FeeCapVeryHigh)
    else if msg.tipCap >= TWO_256 then Some(TipVeryHigh)
    else if msg.feeCap < msg.tipCap then Some(TipAboveFeeCap)
    else if msg.feeCap < env.baseFee then Some(FeeCapTooLow)
    else None
  }

  ghost function Intrinsic(msg: Message, env: Env): nat {
    Wrap(DataGas(msg.data, msg.to.None?, env.homestead, env.istanbul) + ListGas(msg.accessList))
  }

  /** The tip per gas the block's author receives. */
  function EffectiveTip(msg: Message, env: Env): (t: int)
  {
    if env.london then Min(msg.tipCap, msg.feeCap - env.baseFee) else msg.gasPrice
  }

  /** What is destroyed per gas used. */
  ghost function Burned(env: Env): nat {
    if env.london then env.baseFee else 0
  }

  /** The first check that a message fails, given the state and the gas left in the pool. */
  ghost function Verdict(w: World, pool: nat, msg: Message, env: Env): (e: Option<Error>)
    requires Sized(w, |w.balances|) && msg.from < |w.balances|
  {
    if PreCheck(w, msg, env).Some? then PreCheck(w, msg, env)
    else if w.balances[msg.from] < msg.gas * msg.feeCap + msg.value then Some(InsufficientFunds)
    else if pool < msg.gas then Some(GasLimitReached)
    else if DataGas(msg.data, msg.to.None?, env.homestead, env.istanbul) > MAX_UINT64 then Some(GasUintOverflow)
    else if msg.gas < Intrinsic(msg, env) then Some(IntrinsicGasTooLow)
    else if 0 < msg.value && w.balances[msg.from] - msg.gas * msg.gasPrice < msg.value then
      Some(InsufficientFundsForTransfer)
    else None
  }

  /** The sender's next nonce, not the last one there is, of an account without code. */
  ghost predicate Named(w: World, msg: Message)
    requires Sized(w, |w.balances|) && msg.from < |w.balances|
  {
    w.nonces[msg.from] == msg.nonce < MAX_UINT64 && !w.hasCode[msg.from]
  }

  /** After London the caps fit 256 bits, the tip is within the fee cap and that covers the
      base fee. */
  ghost predicate Capped(msg: Message, env: Env) {
    env.london ==> env.baseFee <= msg.feeCap < TWO_256 && msg.tipCap <= msg.feeCap
  }

  ghost predicate Funded(w: World, msg: Message)
    requires msg.from < |w.balances|
  {
    w.balances[msg.from] >= msg.gas * msg.feeCap + msg.value
  }

  ghost predicate DataFits(msg: Message, env: Env) {
    DataGas(msg.data, msg.to.None?, env.homestead, env.istanbul) <= MAX_UINT64
  }

  ghost predicate Covered(w: World, msg: Message)
    requires msg.from < |w.balances|
  {
    msg.value == 0 || w.balances[msg.from] >= msg.gas * msg.gasPrice + msg.value
  }

  /** When a message is accepted and when each error is answered. */
  ghost predicate Answers(w: World, pool: nat, msg: Message, env: Env, e: Option<Error>)
    requires Sized(w, |w.balances|) && msg.from < |w.balances|
  {
    var n, named := w.nonces[msg.from], Named(w, msg);
    var bought := named && Capped(msg, env) && Funded(w, msg) && msg.gas <= pool;
    && (e == Some(NonceTooHigh) <==> n < msg.nonce) && (e == Some(NonceTooLow) <==> n > msg.nonce)
    && (e == Some(NonceMax) <==> n == msg.nonce >= MAX_UINT64)
    && (e == Some(SenderNoEOA) <==> n == msg.nonce < MAX_UINT64 && w.hasCode[msg.from])
    && (e == Some(FeeCapVeryHigh) <==> named && env.london && msg.feeCap >= TWO_256)
    && (e == Some(TipVeryHigh) <==> named && env.london && msg.feeCap < TWO_256 <= msg.tipCap)
    && (e == Some(TipAboveFeeCap) <==> named && env.london && msg.feeCap < msg.tipCap < TWO_256)
    && (e == Some(FeeCapTooLow) <==>
        named && env.london && msg.tipCap <= msg.feeCap < TWO_256 && msg.feeCap < env.baseFee)
    && (e == Some(InsufficientFunds) <==> named && Capped(msg, env) && !Funded(w, msg))
    && (e == Some(GasLimitReached) <==> named && Capped(msg, env) && Funded(w, msg) && pool < msg.gas)
    && (e == Some(GasUintOverflow) <==> bought && !DataFits(msg, env))
    && (e == Some(IntrinsicGasTooLow) <==> bought && DataFits(msg, env) && msg.gas < Intrinsic(msg, env))
    && (e == Some(InsufficientFundsForTransfer) <==>
        bought && DataFits(msg, env) && Intrinsic(msg, env) <= msg.gas && !Covered(w, msg))
    && (e == None <==> bought && DataFits(msg, env) && Intrinsic(msg, env) <= msg.gas && Covered(w, msg))
  }

  lemma {:induction false} VerdictAnswers(w: World, pool: nat, msg: Message, env: Env)
    requires Sized(w, |w.balances|) && msg.from < |w.balances|
    ensures Answers(w, pool, msg, env, Verdict(w, pool, msg, env))
  {
  }

  /** The transfer check cannot fail once the gas is bought at a price within the cap. */
  lemma {:induction false} TransferCovered(w: World, pool: nat, msg: Message, env: Env)
    requires Sized(w, |w.balances|) && msg.from < |w.balances| && msg.gasPrice <= msg.feeCap
    ensures Verdict(w, pool, msg, env) != Some(InsufficientFundsForTransfer)
  {
    MulMonotone(msg.gas, msg.gasPrice, msg.feeCap);
  }

  function Bumped(w: World, msg: Message): World
    requires msg.from < |w.nonces|
  {
    if msg.to.Some? then w.(nonces := w.nonces[msg.from := w.nonces[msg.from] + 1]) else w
  }

  /** What a message run leaves: the state, the gas used and whether the code failed. */
  datatype Effect = Effect(world: World, used: nat, failed: bool)

  ghost predicate Runnable(w: World, msg: Message, env: Env, evm: Evm, n: nat) {
    Sized(w, n) && Conserving(evm, n) && msg.from < n && env.coinbase < n && Intrinsic(msg, env) <= msg.gas
  }

  /** The interpreter's outcome on what the message's gas leaves after the intrinsic part. */
  ghost function Ran(w: World, msg: Message, env: Env, evm: Evm, n: nat): (o: Outcome)
    requires Runnable(w, msg, env, evm, n)
    ensures Sized(o.world, n) && o.gasLeft <= msg.gas - Intrinsic(msg, env)
    ensures Total(o.world.balances) == Total(w.balances) - msg.gas * msg.gasPrice
  {
    var paid := Credit(w, msg.from, -(msg.gas * msg.gasPrice));
    CreditTotal(w, msg.from, -(msg.gas * msg.gasPrice));
    assert Sized(Bumped(paid, msg), n);
    evm(Bumped(paid, msg), msg.gas - Intrinsic(msg, env))
  }

  /** The gas given back: what the code left and the capped refund. */
  ghost function Left(o: Outcome, gas: nat, env: Env): (left: nat)
    requires o.gasLeft <= gas
    ensures o.gasLeft <= left <= gas
  {
    o.gasLeft + Min((gas - o.gasLeft) / (if env.london then REFUND_QUOTIENT_EIP3529 else REFUND_QUOTIENT), o.refund)
  }

  /** The whole transition: allowance paid, code run, rest given back, tip paid. */
  ghost function Applied(w: World, msg: Message, env: Env, evm: Evm, n: nat): (e: Effect)
    requires Runnable(w, msg, env, evm, n)
    ensures Sized(e.world, n) && e.used <= msg.gas
  {
    var o := Ran(w, msg, env, evm, n);
    var left := Left(o, msg.gas, env);
    var back := Credit(o.world, msg.from, left * msg.gasPrice);
    Effect(Credit(back, env.coinbase, (msg.gas - left) * EffectiveTip(msg, env)), msg.gas - left, o.failed)
  }

  /** A transition destroys exactly the base fee of the gas used. */
  lemma {:induction false} AppliedTotal(w: World, msg: Message, env: Env, evm: Evm, n: nat)
    requires Runnable(w, msg, env, evm, n) && Priced(msg, env) && (env.london ==> msg.feeCap >= env.baseFee)
    ensures var e := Applied(w, msg, env, evm, n); Total(e.world.balances) == Total(w.balances) - e.used * Burned(env)
  {
    var o := Ran(w, msg, env, evm, n);
    var left, tip := Left(o, msg.gas, env), EffectiveTip(msg, env);
    var back := Credit(o.world, msg.from, left * msg.gasPrice);
    var used := msg.gas - left;
    CreditTotal(o.world, msg.from, left * msg.gasPrice);
    CreditTotal(back, env.coinbase, used * tip);
    Ledger(msg, env, left, used, tip, Total(w.balances), Total(Applied(w, msg, env, evm, n).world.balances));
  }

  /** After London a refund never takes more than a fifth of the gas used, so at least
      four fifths of the intrinsic price are paid. */
  lemma {:induction false} AppliedAtLeast(w: World, msg: Message, env: Env, evm: Evm, n: nat)
    requires Runnable(w, msg, env, evm, n) && env.london
    ensures 5 * Applied(w, msg, env, evm, n).used >= 4 * Intrinsic(msg, env)
  {
  }

  /** What the code is run on: the whole allowance is paid, and for a call the sender's
      nonce is one higher. */
  function Entered(w: World, msg: Message): World
    requires msg.from < |w.balances| && msg.from < |w.nonces|
  {
    World(w.balances[msg.from := w.balances[msg.from] - msg.gas * msg.gasPrice],
          if msg.to.Some? then w.nonces[msg.from := w.nonces[msg.from] + 1] else w.nonces, w.hasCode)
  }

  /** What an account gets at the end: the sender the gas not used, the author the tips. */
  function Share(msg: Message, env: Env, used: nat, a: Addr): int {
    (if a == msg.from then (msg.gas - used) * msg.gasPrice else 0) +
    (if a == env.coinbase then used * EffectiveTip(msg, env) else 0)
  }

  /** From the code's outcome to the end: the gas used is what the code took less the
      capped refund, and only sender and author get their share. */
  ghost predicate Charged(o: Outcome, w: World, msg: Message, env: Env, x: Execution) {
    && w.nonces == o.world.nonces && w.hasCode == o.world.hasCode && x.failed == o.failed
    && o.gasLeft <= msg.gas && |w.balances| == |o.world.balances|
    && (var took := msg.gas - o.gasLeft;
        x.usedGas == took - Min(took / if env.london then 5 else 2, o.refund))
    && forall a | 0 <= a < |w.balances| :: w.balances[a] == o.world.balances[a] + Share(msg, env, x.usedGas, a)
  }

  lemma {:induction false} AppliedCharges(w: World, msg: Message, env: Env, evm: Evm, n: nat)
    requires Runnable(w, msg, env, evm, n)
    ensures var e := Applied(w, msg, env, evm, n);
            Charged(evm(Entered(w, msg), msg.gas - Intrinsic(msg, env)), e.world, msg, env, Execution(e.used, e.failed))
  {
    var paid := Credit(w, msg.from, -(msg.gas * msg.gasPrice));
    assert Bumped(paid, msg) == Entered(w, msg);
    var o := Ran(w, msg, env, evm, n);
    var left := Left(o, msg.gas, env);
    assert left == msg.gas - (msg.gas - left);
  }

  lemma {:induction false} Explained(w: World, w': World, pool: nat, msg: Message, env: Env, evm: Evm,
                                     r: Result<Execution>)
    requires Sized(w, |w.balances|) && msg.from < |w.balances| && env.coinbase < |w.balances|
    requires Conserving(evm, |w.balances|) && Verdict(w, pool, msg, env) == if r.Ok? then None else Some(r.error)
    requires r.Ok? ==>
               var e := Applied(w, msg, env, evm, |w.balances|);
               w' == e.world && r.value == Execution(e.used, e.failed)
    ensures r.Ok? ==> Named(w, msg) && Capped(msg, env) && msg.gas >= Intrinsic(msg, env)
    ensures Answers(w, pool, msg, env, if r.Ok? then None else Some(r.error))
    ensures r.Ok? ==> Charged(evm(Entered(w, msg), msg.gas - Intrinsic(msg, env)), w', msg, env, r.value)
  {
    VerdictAnswers(w, pool, msg, env);
    if r.Ok? {
      AppliedCharges(w, msg, env, evm, |w.balances|);
    }
  }

  class Transition {
    const gp: GasPool
    const db: StateDB
    const msg: Message
    const env: Env
    var gas: nat
    var initialGas: nat

    constructor (gp: GasPool, db: StateDB, msg: Message, env: Env)
      ensures this.gp == gp && this.db == db && this.msg == msg && this.env == env && gas == 0 && initialGas == 0
    {
      this.gp, this.db, this.msg, this.env := gp, db, msg, env;
      gas, initialGas := 0, 0;
    }

    /** Pays for the whole gas allowance in advance. The balance must cover the fee cap
        and the value, so with a price within the cap the value is still there after. */
    method BuyGas() returns (e: Option<Error>)
      requires msg.from < |db.world.balances| && gas == 0
      modifies this, gp, db
      ensures e.None? <==>
              old(db.world.balances[msg.from]) >= msg.gas * msg.feeCap + msg.value && old(gp.gas) >= msg.gas
      ensures e.Some? ==> db.world == old(db.world) && gp.gas == old(gp.gas)
      ensures e.Some? ==> e.value == if old(db.world.balances[msg.from]) < msg.gas * msg.feeCap + msg.value
                                     then InsufficientFunds else GasLimitReached
      ensures e.None? ==> gp.gas == old(gp.gas) - msg.gas && gas == initialGas == msg.gas
      ensures e.None? ==> db.world == Credit(old(db.world), msg.from, -(msg.gas * msg.gasPrice))
      ensures e.None? && msg.gasPrice <= msg.feeCap ==> db.world.balances[msg.from] >= msg.value
    {
      var mgval := msg.gas * msg.gasPrice;
      if db.world.balances[msg.from] < msg.gas * msg.feeCap + msg.value {
        return Some(InsufficientFunds);
      }
      var ok := gp.SubGas(msg.gas);
      if !ok {
        return Some(GasLimitReached);
      }
      gas, initialGas := gas + msg.gas, msg.gas;
      if msg.gasPrice <= msg.feeCap {
        MulMonotone(msg.gas, msg.gasPrice, msg.feeCap);
      }
      db.world := Credit(db.world, msg.from, -mgval);
      e := None;
    }

    /** Applies the capped refund and returns the unused gas to sender and pool. */
    method RefundGas(quotient: nat, counter: nat)
      requires quotient == REFUND_QUOTIENT || quotient == REFUND_QUOTIENT_EIP3529
      requires gas <= initialGas && msg.from < |db.world.balances|
      requires gp.gas + initialGas <= MAX_UINT64
      modifies this`gas, gp, db
      ensures gas == old(gas) + Min((initialGas - old(gas)) / quotient, counter)
      ensures gas <= initialGas && gp.gas == old(gp.gas) + gas
      ensures db.world == Credit(old(db.world), msg.from, gas * msg.gasPrice)
      ensures Total(db.world.balances) == old(Total(db.world.balances)) + gas * msg.gasPrice
    {
      var refund := if quotient == REFUND_QUOTIENT then (initialGas - gas) / REFUND_QUOTIENT
                    else (initialGas - gas) / REFUND_QUOTIENT_EIP3529;
      if refund > counter {
        refund := counter;
      }
      gas := gas + refund;
      CreditTotal(db.world, msg.from, gas * msg.gasPrice);
      db.world := Credit(db.world, msg.from, gas * msg.gasPrice);
      gp.AddGas(gas);
    }

    /** The checks in turn, then the code. */
    method Apply(evm: Evm) returns (r: Result<Execution>)
      requires Sized(db.world, |db.world.balances|) && Conserving(evm, |db.world.balances|)
      requires msg.from < |db.world.balances| && env.coinbase < |db.world.balances|
      requires gas == 0 && gp.gas <= MAX_UINT64
      modifies this, gp, db
      ensures Sized(db.world, old(|db.world.balances|)) && gp.gas <= old(gp.gas)
      ensures r.Ok? <==> old(Verdict(db.world, gp.gas, msg, env)).None?
      ensures r.Err? ==> old(Verdict(db.world, gp.gas, msg, env)) == Some(r.error)
      ensures r.Ok? ==>
                var e := old(Applied(db.world, msg, env, evm, |db.world.balances|));
                db.world == e.world && r.value == Execution(e.used, e.failed) && gp.gas == old(gp.gas) - e.used
      ensures r.Ok? && Priced(msg, env) ==>
                Total(db.world.balances) == old(Total(db.world.balances)) - r.value.usedGas * Burned(env)
      ensures r.Ok? && env.london ==> 5 * r.value.usedGas >= 4 * Intrinsic(msg, env)
      ensures r.Err? && !(r.error in {GasUintOverflow, IntrinsicGasTooLow, InsufficientFundsForTransfer}) ==>
                db.world == old(db.world) && gp.gas == old(gp.gas)
      ensures r.Err? && r.error in {GasUintOverflow, IntrinsicGasTooLow, InsufficientFundsForTransfer} ==>
                db.world == Credit(old(db.world), msg.from, -(msg.gas * msg.gasPrice))
                  && gp.gas == old(gp.gas) - msg.gas
      ensures Priced(msg, env) ==> r != Err(InsufficientFundsForTransfer)
    {
      ghost var n, w0 := |db.world.balances|, db.world;
      if msg.gasPrice <= msg.feeCap {
        TransferCovered(w0, gp.gas, msg, env);
      }
      var e := PreCheck(db.world, msg, env);
      if e.Some? {
        return Err(e.value);
      }
      e := BuyGas();
      if e.Some? {
        return Err(e.value);
      }
      var intrinsic := IntrinsicGas(msg.data, msg.accessList, msg.to.None?, env.homestead, env.istanbul);
      if intrinsic.Err? {
        return Err(intrinsic.error);
      }
      if gas < intrinsic.value {
        return Err(IntrinsicGasTooLow);
      }
      gas := gas - intrinsic.value;
      if msg.value > 0 && db.world.balances[msg.from] < msg.value {
        return Err(InsufficientFundsForTransfer);
      }
      var x := Execute(evm, w0, n);
      if Priced(msg, env) {
        AppliedTotal(w0, msg, env, evm, n);
      }
      if env.london {
        AppliedAtLeast(w0, msg, env, evm, n);
      }
      r := Ok(x);
    }

    /** Applies the message: it fails with the first check it does not pass, and else
        ends in the specified state. A message that fails after the gas was bought leaves
        the allowance paid and taken from the pool; the caller drops the whole block. */
    method TransitionDb(evm: Evm) returns (r: Result<Execution>)
      requires Sized(db.world, |db.world.balances|) && Conserving(evm, |db.world.balances|)
      requires msg.from < |db.world.balances| && env.coinbase < |db.world.balances|
      requires gas == 0 && gp.gas <= MAX_UINT64
      modifies this, gp, db
      ensures Sized(db.world, old(|db.world.balances|)) && gp.gas <= old(gp.gas)
      ensures r.Ok? <==> old(Verdict(db.world, gp.gas, msg, env)).None?
      ensures r.Err? ==> old(Verdict(db.world, gp.gas, msg, env)) == Some(r.error)
      ensures r.Ok? ==>
                var e := old(Applied(db.world, msg, env, evm, |db.world.balances|));
                db.world == e.world && r.value == Execution(e.used, e.failed) && gp.gas == old(gp.gas) - e.used
      ensures r.Ok? && Priced(msg, env) ==>
                Total(db.world.balances) == old(Total(db.world.balances)) - r.value.usedGas * Burned(env)
      ensures r.Ok? && env.london ==> 5 * r.value.usedGas >= 4 * Intrinsic(msg, env)
      ensures r.Err? && !(r.error in {GasUintOverflow, IntrinsicGasTooLow, InsufficientFundsForTransfer}) ==>
                db.world == old(db.world) && gp.gas == old(gp.gas)
      ensures r.Err? && r.error in {GasUintOverflow, IntrinsicGasTooLow, InsufficientFundsForTransfer} ==>
                db.world == Credit(old(db.world), msg.from, -(msg.gas * msg.gasPrice))
                  && gp.gas == old(gp.gas) - msg.gas
      ensures Priced(msg, env) ==> r != Err(InsufficientFundsForTransfer)
      ensures r.Ok? ==> old(db.world.nonces[msg.from]) == msg.nonce < MAX_UINT64 && !old(db.world.hasCode[msg.from])
      ensures r.Ok? && env.london ==> env.baseFee <= msg.feeCap < TWO_256 && msg.tipCap <= msg.feeCap
      ensures Answers(old(db.world), old(gp.gas), msg, env, if r.Ok? then None else Some(r.error))
      ensures r.Ok? ==> msg.gas >= Intrinsic(msg, env)
                        && Charged(evm(Entered(old(db.world), msg), msg.gas - Intrinsic(msg, env)), db.world, msg, env,
                             r.value)
    {
      ghost var w, pool := db.world, gp.gas;
      r := Apply(evm);
      Explained(w, db.world, pool, msg, env, evm, r);
    }

    /** Counts the sender's nonce and runs the code. */
    method RunCode(evm: Evm) returns (refund: nat, failed: bool)
      requires msg.from < |db.world.nonces|
      modifies this`gas, db
      ensures var o := evm(Bumped(old(db.world), msg), old(gas));
              db.world == o.world && gas == o.gasLeft && refund == o.refund && failed == o.failed
    {
      if msg.to.Some? {
        db.world := db.world.(nonces := db.world.nonces[msg.from := db.world.nonces[msg.from] + 1]);
      }
      var o := evm(db.world, gas);
      db.world, gas := o.world, o.gasLeft;
      refund, failed := o.refund, o.failed;
    }

    method PayTip() returns (used: nat)
      requires gas <= initialGas && env.coinbase < |db.world.balances|
      modifies db
      ensures used == initialGas - gas
      ensures db.world == Credit(old(db.world), env.coinbase, used * EffectiveTip(msg, env))
      ensures Total(db.world.balances) == old(Total(db.world.balances)) + used * EffectiveTip(msg, env)
    {
      used := initialGas - gas;
      CreditTotal(db.world, env.coinbase, used * EffectiveTip(msg, env));
      db.world := Credit(db.world, env.coinbase, used * EffectiveTip(msg, env));
    }

    /** Refunds and pays the tip. */
    method Settle(refund: nat, failed: bool, ghost o: Outcome) returns (x: Execution)
      requires db.world == o.world && gas == o.gasLeft && refund == o.refund && failed == o.failed
      requires gas <= initialGas && gp.gas + initialGas <= MAX_UINT64
      requires msg.from < |db.world.balances| && env.coinbase < |db.world.balances|
      modifies this`gas, gp, db
      ensures var left := Left(o, initialGas, env);
              && x == Execution(initialGas - left, o.failed) && gp.gas == old(gp.gas) + left
              && db.world == Credit(Credit(o.world, msg.from, left * msg.gasPrice), env.coinbase,
                  (initialGas - left) * EffectiveTip(msg, env))
    {
      RefundGas(if env.london then REFUND_QUOTIENT_EIP3529 else REFUND_QUOTIENT, refund);
      var used := PayTip();
      x := Execution(used, failed);
    }

    /** Runs the code, refunds, and pays the tip. */
    method Execute(evm: Evm, ghost w0: World, ghost n: nat) returns (x: Execution)
      requires Runnable(w0, msg, env, evm, n) && db.world == Credit(w0, msg.from, -(msg.gas * msg.gasPrice))
      requires initialGas == msg.gas && gas == msg.gas - Intrinsic(msg, env) && gp.gas + msg.gas <= MAX_UINT64
      modifies this, gp, db
      ensures var e := Applied(w0, msg, env, evm, n);
              db.world == e.world && x == Execution(e.used, e.failed) && gp.gas == old(gp.gas) + msg.gas - e.used
    {
      ghost var o := Ran(w0, msg, env, evm, n);
      var refund, failed := RunCode(evm);
      assert db.world == o.world && gas == o.gasLeft;
      x := Settle(refund, failed, o);
    }
  }

  // ------------------------------------------------------------------- whole blocks

  /** A transaction as a message: after London it pays the effective gas price. */
  function AsMessage(tx: Message, env: Env): (m: Message)
    ensures Priced(m, env) && m.(gasPrice := tx.gasPrice) == tx
  {
    tx.(gasPrice := if env.london then Min(tx.tipCap + env.baseFee, tx.feeCap) else tx.feeCap)
  }

  /** The effective price is the greatest within the fee cap and within base fee plus tip
      cap. If the cap covers the base fee, it is the base fee plus what the author gets. */
  lemma {:induction false} EffectivePrice(tx: Message, env: Env, p: nat)
    requires env.london
    ensures var m := AsMessage(tx, env);
            && m.gasPrice <= tx.feeCap && m.gasPrice <= env.baseFee + tx.tipCap
            && (p <= tx.feeCap && p <= env.baseFee + tx.tipCap ==> p <= m.gasPrice)
            && (tx.feeCap >= env.baseFee ==>
                  m.gasPrice == env.baseFee + EffectiveTip(m, env) && 0 <= EffectiveTip(m, env) <= tx.tipCap)
  {
  }

  /** Each receipt's cumulative gas is the running sum. */
  ghost predicate RunningSums(rs: seq<Receipt>, start: nat) {
    forall i: nat {:trigger SumAt(rs, start, i)} | i < |rs| :: SumAt(rs, start, i)
  }

  ghost predicate SumAt(rs: seq<Receipt>, start: nat, i: nat)
    requires i < |rs|
  {
    rs[i].cumulative == rs[i].gasUsed + if i == 0 then start else rs[i - 1].cumulative
  }

  lemma RunningSumsAppend(rs: seq<Receipt>, r: Receipt)
    requires RunningSums(rs, 0)
    requires r.cumulative == r.gasUsed + if rs == [] then 0 else rs[|rs| - 1].cumulative
    ensures RunningSums(rs + [r], 0)
  {
    forall i: nat | i < |rs| + 1
      ensures SumAt(rs + [r], 0, i)
    {
      if i < |rs| {
        assert SumAt(rs, 0, i);
      }
    }
  }

  /** What a block is run with. */
  datatype Block = Block(limit: nat, txs: seq<Message>, evms: seq<Evm>, env: Env)

  ghost predicate Proper(b: Block, n: nat) {
    && |b.evms| == |b.txs| && b.env.coinbase < n
    && forall i | 0 <= i < |b.txs| :: b.txs[i].from < n && Conserving(b.evms[i], n)
  }

  /** The state and the gas left after the first k transactions, none of which failed. */
  datatype Midway = Midway(world: World, pool: int)

  ghost predicate AllApply(b: Block, w: World, n: nat, k: nat)
    requires Sized(w, n) && Proper(b, n) && k <= |b.txs|
  {
    forall i: nat {:trigger Applies(b, w, n, i)} | i < k :: Applies(b, w, n, i)
  }

  ghost function After(b: Block, w: World, n: nat, k: nat): (m: Midway)
    requires Sized(w, n) && Proper(b, n) && k <= |b.txs|
    ensures Sized(m.world, n)
    decreases k
  {
    if k == 0 then Midway(w, b.limit)
    else
      var m, msg := After(b, w, n, k - 1), AsMessage(b.txs[k - 1], b.env);
      if Intrinsic(msg, b.env) > msg.gas then m
      else
        var e := Applied(m.world, msg, b.env, b.evms[k - 1], n);
        Midway(e.world, m.pool - e.used)
  }

  /** The check the k-th transaction fails, if any, after the ones before it. */
  ghost function VerdictAt(b: Block, w: World, n: nat, k: nat): (e: Option<Error>)
    requires Sized(w, n) && Proper(b, n) && k < |b.txs|
  {
    var m := After(b, w, n, k);
    Verdict(m.world, if m.pool < 0 then 0 else m.pool, AsMessage(b.txs[k], b.env), b.env)
  }

  ghost predicate Applies(b: Block, w: World, n: nat, k: nat)
    requires Sized(w, n) && Proper(b, n) && k < |b.txs|
  {
    VerdictAt(b, w, n, k).None?
  }

  lemma {:induction false} PassedChecks(w: World, pool: nat, msg: Message, env: Env)
    requires Sized(w, |w.balances|) && msg.from < |w.balances| && Verdict(w, pool, msg, env).None?
    ensures Intrinsic(msg, env) <= msg.gas && (env.london ==> msg.feeCap >= env.baseFee)
  {
  }

  lemma {:induction false} AfterNext(b: Block, w: World, n: nat, k: nat)
    requires Sized(w, n) && Proper(b, n) && k < |b.txs| && Applies(b, w, n, k)
    ensures var m, msg := After(b, w, n, k), AsMessage(b.txs[k], b.env);
            && Runnable(m.world, msg, b.env, b.evms[k], n) && (b.env.london ==> msg.feeCap >= b.env.baseFee)
            && var e := Applied(m.world, msg, b.env, b.evms[k], n);
               After(b, w, n, k + 1) == Midway(e.world, m.pool - e.used)
  {
    var m := After(b, w, n, k);
    PassedChecks(m.world, if m.pool < 0 then 0 else m.pool, AsMessage(b.txs[k], b.env), b.env);
  }

  lemma {:induction false} AllApplyNext(b: Block, w: World, n: nat, k: nat)
    requires Sized(w, n) && Proper(b, n) && k < |b.txs| && AllApply(b, w, n, k) && Applies(b, w, n, k)
    ensures AllApply(b, w, n, k + 1)
  {
  }

  lemma {:induction false} AllApplyBefore(b: Block, w: World, n: nat, k: nat)
    requires Sized(w, n) && Proper(b, n) && 0 < k <= |b.txs| && AllApply(b, w, n, k)
    ensures AllApply(b, w, n, k - 1) && Applies(b, w, n, k - 1)
  {
    assert Applies(b, w, n, k - 1);
  }

  lemma {:induction false} NotAllApply(b: Block, w: World, n: nat, k: nat)
    requires Sized(w, n) && Proper(b, n) && k < |b.txs| && !Applies(b, w, n, k)
    ensures !AllApply(b, w, n, |b.txs|)
  {
  }

  /** From one point of a block to a later one exactly the base fee of the gas taken is gone. */
  ghost predicate Burns(from: Midway, to: Midway, fee: int) {
    to.pool <= from.pool && Total(to.world.balances) == Total(from.world.balances) - (from.pool - to.pool) * fee
  }

  lemma {:induction false} BurnsOn(x: Midway, y: Midway, z: Midway, fee: int)
    requires Burns(x, y, fee) && Burns(y, z, fee)
    ensures Burns(x, z, fee)
  {
    assert (x.pool - y.pool) * fee + (y.pool - z.pool) * fee == (x.pool - z.pool) * fee;
  }

  lemma {:induction false} NextBurns(b: Block, w: World, n: nat, k: nat)
    requires Sized(w, n) && Proper(b, n) && k < |b.txs| && Applies(b, w, n, k)
    ensures Burns(After(b, w, n, k), After(b, w, n, k + 1), Burned(b.env))
  {
    AfterNext(b, w, n, k);
    AppliedTotal(After(b, w, n, k).world, AsMessage(b.txs[k], b.env), b.env, b.evms[k], n);
  }

  lemma {:induction false} BurnsNext(b: Block, w: World, n: nat, k: nat, start: Midway)
    requires Sized(w, n) && Proper(b, n) && 0 < k <= |b.txs| && Applies(b, w, n, k - 1)
    requires Burns(start, After(b, w, n, k - 1), Burned(b.env))
    ensures Burns(start, After(b, w, n, k), Burned(b.env))
  {
    NextBurns(b, w, n, k - 1);
    BurnsOn(start, After(b, w, n, k - 1), After(b, w, n, k), Burned(b.env));
  }

  lemma {:induction false} AfterBurns(b: Block, w: World, n: nat, k: nat)
    requires Sized(w, n) && Proper(b, n) && k <= |b.txs| && AllApply(b, w, n, k)
    ensures Burns(Midway(w, b.limit), After(b, w, n, k), Burned(b.env))
  {
    if k > 0 {
      AllApplyBefore(b, w, n, k);
      AfterBurns(b, w, n, k - 1);
      BurnsNext(b, w, n, k, Midway(w, b.limit));
    }
  }

  /** The interpreter never lowers a nonce, and raises its creator's when it creates. */
  ghost predicate Raising(evm: Evm, tx: Message, n: nat) {
    forall w, g | Sized(w, n) ::
      var o := evm(w, g);
      && Sized(o.world, n) && (forall a | 0 <= a < n :: w.nonces[a] <= o.world.nonces[a])
      && (tx.to.None? && tx.from < n ==> w.nonces[tx.from] < o.world.nonces[tx.from])
  }

  ghost predicate RaisingAt(b: Block, n: nat, k: nat)
    requires k < |b.txs| == |b.evms|
  {
    Raising(b.evms[k], b.txs[k], n)
  }

  ghost predicate AllRaising(b: Block, n: nat)
    requires |b.txs| == |b.evms|
  {
    forall k: nat {:trigger RaisingAt(b, n, k)} | k < |b.txs| :: RaisingAt(b, n, k)
  }

  /** An account's nonce before each of k transactions and after them: it never falls, and a
      transaction of the account has it and raises it. */
  ghost predicate Log(x: seq<nat>, txs: seq<Message>, a: Addr, k: nat) {
    |x| == k + 1 <= |txs| + 1 && forall i: nat | i < k :: RisesAt(x, txs, a, i)
  }

  ghost predicate RisesAt(x: seq<nat>, txs: seq<Message>, a: Addr, i: nat)
    requires i < |txs| && i + 1 < |x|
  {
    x[i] <= x[i + 1] && (txs[i].from == a ==> txs[i].nonce == x[i] < x[i + 1])
  }

  lemma {:induction false} LogMore(x: seq<nat>, txs: seq<Message>, a: Addr, k: nat, v: nat)
    requires Log(x, txs, a, k) && k < |txs|
    requires x[k] <= v && (txs[k].from == a ==> txs[k].nonce == x[k] < v)
    ensures Log(x + [v], txs, a, k + 1)
  {
    var y := x + [v];
    forall i: nat | i < k + 1
      ensures RisesAt(y, txs, a, i)
    {
      if i < k {
        assert RisesAt(x, txs, a, i);
      }
    }
  }

  /** One transaction: its code is entered with a nonce that is not lower, for the sender's
      of a call higher, and does not lower it. */
  lemma {:induction false} StepRises(w: World, w': World, pool: nat, msg: Message, env: Env, evm: Evm, n: nat, a: Addr)
    requires Runnable(w, msg, env, evm, n) && Verdict(w, pool, msg, env).None? && Raising(evm, msg, n) && a < n
    requires w' == Applied(w, msg, env, evm, n).world
    ensures w.nonces[a] <= w'.nonces[a] && (msg.from == a ==> msg.nonce == w.nonces[a] < w'.nonces[a])
  {
    VerdictAnswers(w, pool, msg, env);
    AppliedCharges(w, msg, env, evm, n);
    var entered := Entered(w, msg);
    assert Sized(entered, n) && w.nonces[a] <= entered.nonces[a];
  }

  lemma {:induction false} NoncesRise(b: Block, w: World, n: nat, a: Addr, k: nat, m: Midway, m': Midway)
    requires Sized(w, n) && Proper(b, n) && a < n && k < |b.txs| && Applies(b, w, n, k) && RaisingAt(b, n, k)
    requires m == After(b, w, n, k) && m' == After(b, w, n, k + 1)
    ensures m.world.nonces[a] <= m'.world.nonces[a]
    ensures b.txs[k].from == a ==> b.txs[k].nonce == m.world.nonces[a] < m'.world.nonces[a]
  {
    var msg := AsMessage(b.txs[k], b.env);
    AfterNext(b, w, n, k);
    SameRaising(b.evms[k], b.txs[k], msg, n);
    StepRises(m.world, m'.world, if m.pool < 0 then 0 else m.pool, msg, b.env, b.evms[k], n, a);
  }

  lemma {:induction false} SameRaising(evm: Evm, tx: Message, msg: Message, n: nat)
    requires Raising(evm, tx, n) && msg.from == tx.from && msg.to == tx.to
    ensures Raising(evm, msg, n)
  {
  }

  lemma {:induction false} LogClimbs(x: seq<nat>, txs: seq<Message>, a: Addr, k: nat, i: nat, j: nat)
    requires Log(x, txs, a, k) && i <= j <= k
    ensures x[i] <= x[j]
  {
    if i < j {
      LogClimbs(x, txs, a, k, i, j - 1);
      assert RisesAt(x, txs, a, j - 1);
    }
  }

  /** So of two transactions of the account the later has the higher nonce. */
  lemma {:induction false} LaterIsHigher(x: seq<nat>, txs: seq<Message>, a: Addr, i: nat, j: nat)
    requires Log(x, txs, a, |txs|) && i < j < |txs| && txs[i].from == txs[j].from == a
    ensures txs[i].nonce < txs[j].nonce
  {
    assert RisesAt(x, txs, a, i) && RisesAt(x, txs, a, j);
    LogClimbs(x, txs, a, |txs|, i + 1, j);
  }

  lemma {:induction false} LoggedNext(b: Block, w: World, n: nat, a: Addr, k: nat, m: Midway, m': Midway, x: seq<nat>)
    requires Sized(w, n) && Proper(b, n) && a < n && k < |b.txs| && Applies(b, w, n, k) && RaisingAt(b, n, k)
    requires m == After(b, w, n, k) && m' == After(b, w, n, k + 1)
    requires Log(x, b.txs, a, k) && x[k] == m.world.nonces[a]
    ensures Log(x + [m'.world.nonces[a]], b.txs, a, k + 1)
  {
    NoncesRise(b, w, n, a, k, m, m');
    LogMore(x, b.txs, a, k, m'.world.nonces[a]);
  }

  lemma {:induction false} Logged(b: Block, w: World, n: nat, a: Addr, k: nat, m: Midway) returns (x: seq<nat>)
    requires Sized(w, n) && Proper(b, n) && a < n && k <= |b.txs| && AllApply(b, w, n, k) && AllRaising(b, n)
    requires m == After(b, w, n, k)
    ensures Log(x, b.txs, a, k) && x[k] == m.world.nonces[a]
  {
    if k == 0 {
      x := [m.world.nonces[a]];
    } else {
      var before := After(b, w, n, k - 1);
      AllApplyBefore(b, w, n, k);
      x := Logged(b, w, n, a, k - 1, before);
      assert RaisingAt(b, n, k - 1);
      LoggedNext(b, w, n, a, k - 1, before, m, x);
      x := x + [m.world.nonces[a]];
    }
  }

  /** A sender uses a nonce at most once in a block, and in rising order. */
  ghost predicate UsedOnce(txs: seq<Message>) {
    forall i, j | 0 <= i < j < |txs| && txs[i].from == txs[j].from :: txs[i].nonce < txs[j].nonce
  }

  lemma {:induction false} NoncesUsedOnce(b: Block, w: World, n: nat)
    requires Sized(w, n) && Proper(b, n) && AllApply(b, w, n, |b.txs|) && AllRaising(b, n)
    ensures UsedOnce(b.txs)
  {
    forall i: nat, j: nat | i < j < |b.txs| && b.txs[i].from == b.txs[j].from
      ensures b.txs[i].nonce < b.txs[j].nonce
    {
      var x := Logged(b, w, n, b.txs[i].from, |b.txs|, After(b, w, n, |b.txs|));
      LaterIsHigher(x, b.txs, b.txs[i].from, i, j);
    }
  }

  /** Applies the k-th transaction of a block to where the ones before it left off. */
  method ApplyTransaction(b: Block, k: nat, gp: GasPool, db: StateDB, ghost w: World, ghost n: nat)
    returns (r: Result<Execution>)
    requires Sized(w, n) && Proper(b, n) && k < |b.txs| && gp.gas <= MAX_UINT64
    requires Midway(db.world, gp.gas) == After(b, w, n, k)
    modifies gp, db
    ensures r.Ok? <==> Applies(b, w, n, k)
    ensures r.Err? ==> VerdictAt(b, w, n, k) == Some(r.error)
    ensures r.Ok? ==> Midway(db.world, gp.gas) == After(b, w, n, k + 1) && gp.gas == old(gp.gas) - r.value.usedGas
  {
    var st := new Transition(gp, db, AsMessage(b.txs[k], b.env), b.env);
    assert |db.world.balances| == n;
    r := st.TransitionDb(b.evms[k]);
    if r.Ok? {
      AfterNext(b, w, n, k);
    }
  }

  /** Runs a block. It is accepted if and only if every transaction applies after the
      ones before it, and else rejected with the first error. The gas used and the gas
      left add up to the limit, and exactly the base fee of the used gas is destroyed. */
  method Process(b: Block, db: StateDB) returns (r: Result<seq<Receipt>>, used: nat, gp: GasPool)
    requires b.limit <= MAX_UINT64 && Sized(db.world, |db.world.balances|) && Proper(b, |db.world.balances|)
    modifies db
    ensures fresh(gp)
    ensures r.Ok? <==> AllApply(b, old(db.world), old(|db.world.balances|), |b.txs|)
    ensures r.Err? ==> exists k: nat :: k < |b.txs| && AllApply(b, old(db.world), old(|db.world.balances|), k)
                                        && VerdictAt(b, old(db.world), old(|db.world.balances|), k) == Some(r.error)
    ensures r.Ok? ==> Midway(db.world, gp.gas) == After(b, old(db.world), old(|db.world.balances|), |b.txs|)
    ensures r.Ok? ==> |r.value| == |b.txs| && RunningSums(r.value, 0)
    ensures r.Ok? ==> used + gp.gas == b.limit && used == if b.txs == [] then 0 else r.value[|b.txs| - 1].cumulative
    ensures r.Ok? ==> Total(db.world.balances) == old(Total(db.world.balances)) - used * Burned(b.env)
    ensures r.Err? ==> used == 0
    ensures r.Ok? && AllRaising(b, old(|db.world.balances|)) ==> UsedOnce(b.txs)
  {
    gp := new GasPool();
    gp.AddGas(b.limit);
    ghost var w, n := db.world, |db.world.balances|;
    r, used := ProcessAll(b, gp, db, w, n);
    if r.Ok? {
      AfterBurns(b, w, n, |b.txs|);
      if AllRaising(b, n) {
        NoncesUsedOnce(b, w, n);
      }
      assert used == b.limit - gp.gas;
    }
  }

  method ProcessAll(b: Block, gp: GasPool, db: StateDB, ghost w: World, ghost n: nat)
    returns (r: Result<seq<Receipt>>, used: nat)
    requires Sized(w, n) && Proper(b, n) && db.world == w && gp.gas == b.limit <= MAX_UINT64
    modifies gp, db
    ensures r.Ok? <==> AllApply(b, w, n, |b.txs|)
    ensures r.Err? ==> used == 0
    ensures r.Err? ==> exists k: nat :: k < |b.txs| && AllApply(b, w, n, k) && VerdictAt(b, w, n, k) == Some(r.error)
    ensures r.Ok? ==> Midway(db.world, gp.gas) == After(b, w, n, |b.txs|) && used + gp.gas == b.limit
    ensures r.Ok? ==> |r.value| == |b.txs| && RunningSums(r.value, 0)
    ensures r.Ok? ==> used == if b.txs == [] then 0 else r.value[|b.txs| - 1].cumulative
  {
    used := 0;
    var receipts: seq<Receipt> := [];
    var i := 0;
    while i < |b.txs|
      invariant 0 <= i <= |b.txs| && |receipts| == i && Midway(db.world, gp.gas) == After(b, w, n, i)
                && AllApply(b, w, n, i)
      invariant used + gp.gas == b.limit && RunningSums(receipts, 0)
      invariant used == if i == 0 then 0 else receipts[i - 1].cumulative
    {
      var result := ApplyTransaction(b, i, gp, db, w, n);
      if result.Err? {
        NotAllApply(b, w, n, i);
        return Err(result.error), 0;
      }
      AllApplyNext(b, w, n, i);
      used := used + result.value.usedGas;
      var receipt := Receipt(result.value.usedGas, used, result.value.failed);
      RunningSumsAppend(receipts, receipt);
      receipts, i := receipts + [receipt], i + 1;
    }
    r := Ok(receipts);
  }

  lemma MulMonotone(g: nat, a: nat, b: nat)
    requires a <= b
    ensures g * a <= g * b
  {
  }

  /** What is left after the tip is paid is the burned base fee. */
  lemma FeeSplit(msg: Message, env: Env, used: nat)
    requires Priced(msg, env) && (env.london ==> msg.feeCap >= env.baseFee)
    ensures used * msg.gasPrice - used * EffectiveTip(msg, env) == used * Burned(env)
  {
    assert msg.gasPrice == EffectiveTip(msg, env) + Burned(env);
  }

  /** Allowance paid, rest returned, tip paid: the base fee of the used gas is gone. */
  lemma Ledger(msg: Message, env: Env, left: nat, used: nat, tip: int, before: int, after: int)
    requires Priced(msg, env) && (env.london ==> msg.feeCap >= env.baseFee) && left + used == msg.gas
    requires tip == EffectiveTip(msg, env)
    requires after == before - msg.gas * msg.gasPrice + left * msg.gasPrice + used * tip
    ensures after == before - used * Burned(env)
  {
    FeeSplit(msg, env, used);
    assert msg.gas * msg.gasPrice == left * msg.gasPrice + used * msg.gasPrice;
  }
}
