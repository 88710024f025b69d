/** The bank keeper as the swap and auction modules see it: balances per account and denom,
    and the four coin operations, each failing as a whole. */
module Banking {
  import opened Prelude

  /** Nobody is the empty address (an auction without a bidder). Module addresses are derived
      from names and never sign messages, so they are a separate constructor. */
  datatype Account = Nobody | User(id: nat) | Module(name: string)

  /** sdk.Coin; a coin is never negative (sdk.NewCoin panics). */
  datatype Coin = Coin(denom: string, amount: nat)

  predicate IsLetter(c: char) {
    'a' <= c <= 'z' || 'A' <= c <= 'Z'
  }

  /** sdk.ValidateDenom: a letter and 2 to 127 letters, digits or separators. */
  predicate ValidDenom(d: string) {
    && 3 <= |d| <= 128 && IsLetter(d[0])
    && forall c <- d :: IsLetter(c) || '0' <= c <= '9' || c in "/:._-"
  }

  type Balances = map<(Account, string), nat>

  /** Why a coin moves; it has no effect on the bank and lets per-purpose totals be stated. */
  datatype Purpose = BidMoney | DebtMoney | LotMoney | SwapMoney

  /** Pay is SendCoinsFromModuleToAccount, the one send that refuses blocked recipients;
      Move is SendCoinsFromModuleToModule and SendCoinsFromAccountToModule. */
  datatype Op =
    | Pay(from: Account, to: Account, coin: Coin, why: Purpose)
    | Move(from: Account, to: Account, coin: Coin, why: Purpose)
    | Mint(to: Account, coin: Coin, why: Purpose)
    | Burn(from: Account, coin: Coin, why: Purpose)

  function BalanceOf(b: Balances, a: Account, denom: string): nat {
    if (a, denom) in b then b[(a, denom)] else 0
  }

  function Credit(b: Balances, a: Account, c: Coin): (r: Balances)
    ensures forall x, d :: BalanceOf(r, x, d) == BalanceOf(b, x, d) + (if x == a && d == c.denom then c.amount else 0)
  {
    b[(a, c.denom) := BalanceOf(b, a, c.denom) + c.amount]
  }

  function Debit(b: Balances, a: Account, c: Coin): (r: Balances)
    requires c.amount <= BalanceOf(b, a, c.denom)
    ensures forall x, d :: BalanceOf(r, x, d) == BalanceOf(b, x, d) - (if x == a && d == c.denom then c.amount else 0)
  {
    b[(a, c.denom) := BalanceOf(b, a, c.denom) - c.amount]
  }

  function Blocked(blocked: set<string>, a: Account): bool {
    a.Module? && a.name in blocked
  }

  function Apply(blocked: set<string>, b: Balances, op: Op): Result<Balances> {
    match op
    case Pay(from, to, coin, _) =>
      if Blocked(blocked, to) then Err(BlockedAddress)
      else if BalanceOf(b, from, coin.denom) < coin.amount then Err(InsufficientFunds)
      else Ok(Credit(Debit(b, from, coin), to, coin))
    case Move(from, to, coin, _) =>
      if BalanceOf(b, from, coin.denom) < coin.amount then Err(InsufficientFunds)
      else Ok(Credit(Debit(b, from, coin), to, coin))
    case Mint(to, coin, _) => Ok(Credit(b, to, coin))
    case Burn(from, coin, _) =>
      if BalanceOf(b, from, coin.denom) < coin.amount then Err(InsufficientFunds)
      else Ok(Debit(b, from, coin))
  }

  function ApplyAll(blocked: set<string>, b: Balances, ops: seq<Op>): Result<Balances>
    decreases |ops|
  {
    if ops == [] then Ok(b)
    else
      var b1 :- Apply(blocked, b, ops[0]);
      ApplyAll(blocked, b1, ops[1..])
  }

  /** What one operation adds to an account's balance in a denom. */
  function NetOne(op: Op, a: Account, denom: string): int {
    if op.coin.denom != denom then 0
    else
      (if !op.Burn? && op.to == a then op.coin.amount else 0)
      - (if !op.Mint? && op.from == a then op.coin.amount else 0)
  }

  function Net(ops: seq<Op>, a: Account, denom: string): int {
    if ops == [] then 0 else NetOne(ops[0], a, denom) + Net(ops[1..], a, denom)
  }

  lemma ApplyNet(blocked: set<string>, b: Balances, op: Op, a: Account, denom: string)
    requires Apply(blocked, b, op).Ok?
    ensures BalanceOf(Apply(blocked, b, op).value, a, denom) == BalanceOf(b, a, denom) + NetOne(op, a, denom)
  {
  }

  /** A batch that goes through changes every balance by exactly its net flow. */
  lemma {:induction false} ApplyAllNet(blocked: set<string>, b: Balances, ops: seq<Op>, a: Account, denom: string)
    requires ApplyAll(blocked, b, ops).Ok?
    ensures BalanceOf(ApplyAll(blocked, b, ops).value, a, denom) == BalanceOf(b, a, denom) + Net(ops, a, denom)
    decreases |ops|
  {
    if ops != [] {
      ApplyNet(blocked, b, ops[0], a, denom);
      ApplyAllNet(blocked, Apply(blocked, b, ops[0]).value, ops[1..], a, denom);
    }
  }

  lemma {:induction false} ApplyAllConcat(blocked: set<string>, b: Balances, xs: seq<Op>, ys: seq<Op>)
    ensures ApplyAll(blocked, b, xs + ys) ==
            if ApplyAll(blocked, b, xs).Ok? then ApplyAll(blocked, ApplyAll(blocked, b, xs).value, ys)
            else ApplyAll(blocked, b, xs)
    decreases |xs|
  {
    if xs == [] {
      assert xs + ys == ys;
    } else {
      assert (xs + ys)[1..] == xs[1..] + ys;
      if Apply(blocked, b, xs[0]).Ok? {
        ApplyAllConcat(blocked, Apply(blocked, b, xs[0]).value, xs[1..], ys);
      }
    }
  }

  lemma {:induction false} NetConcat(xs: seq<Op>, ys: seq<Op>, a: Account, denom: string)
    ensures Net(xs + ys, a, denom) == Net(xs, a, denom) + Net(ys, a, denom)
    decreases |xs|
  {
    if xs == [] {
      assert xs + ys == ys;
    } else {
      assert (xs + ys)[1..] == xs[1..] + ys;
      NetConcat(xs[1..], ys, a, denom);
    }
  }

  lemma ApplyOneOp(blocked: set<string>, b: Balances, x: Op)
    ensures ApplyAll(blocked, b, [x]) == Apply(blocked, b, x)
    ensures forall a, d :: Net([x], a, d) == NetOne(x, a, d)
  {
    assert [x][1..] == [];
  }

  lemma ApplyTwo(blocked: set<string>, b: Balances, x: Op, y: Op)
    ensures ApplyAll(blocked, b, [x, y]) ==
            if Apply(blocked, b, x).Ok? then Apply(blocked, Apply(blocked, b, x).value, y) else Apply(blocked, b, x)
    ensures forall a, d :: Net([x, y], a, d) == NetOne(x, a, d) + NetOne(y, a, d)
  {
    assert [x, y][1..] == [y];
    ApplyOneOp(blocked, if Apply(blocked, b, x).Ok? then Apply(blocked, b, x).value else b, y);
  }

  // ---------------------------------------------------------------- flows by purpose

  function FlowOne(op: Op, a: Account, denom: string, why: Purpose): int {
    if op.why == why then NetOne(op, a, denom) else 0
  }

  /** What a batch brings an account in a denom under one purpose. */
  function Flow(ops: seq<Op>, a: Account, denom: string, why: Purpose): int {
    if ops == [] then 0 else FlowOne(ops[0], a, denom, why) + Flow(ops[1..], a, denom, why)
  }

  lemma {:induction false} FlowConcat(xs: seq<Op>, ys: seq<Op>, a: Account, denom: string, why: Purpose)
    ensures Flow(xs + ys, a, denom, why) == Flow(xs, a, denom, why) + Flow(ys, a, denom, why)
    decreases |xs|
  {
    if xs == [] {
      assert xs + ys == ys;
    } else {
      assert (xs + ys)[1..] == xs[1..] + ys;
      FlowConcat(xs[1..], ys, a, denom, why);
    }
  }

  lemma FlowOfOne(x: Op, a: Account, denom: string, why: Purpose)
    ensures Flow([x], a, denom, why) == FlowOne(x, a, denom, why)
  {
    assert [x][1..] == [];
  }

  lemma FlowOfTwo(x: Op, y: Op, a: Account, denom: string, why: Purpose)
    ensures Flow([x, y], a, denom, why) == FlowOne(x, a, denom, why) + FlowOne(y, a, denom, why)
  {
    assert [x, y][1..] == [y];
    FlowOfOne(y, a, denom, why);
  }

  lemma {:induction false} NetIsAllFlows(ops: seq<Op>, a: Account, denom: string)
    ensures Net(ops, a, denom) == Flow(ops, a, denom, BidMoney) + Flow(ops, a, denom, DebtMoney)
                                  + Flow(ops, a, denom, LotMoney) + Flow(ops, a, denom, SwapMoney)
    decreases |ops|
  {
    if ops != [] { NetIsAllFlows(ops[1..], a, denom); }
  }

  /** Nothing in a batch that goes through is paid to a blocked account. */
  lemma {:induction false} NoBlockedRecipient(blocked: set<string>, b: Balances, ops: seq<Op>)
    requires ApplyAll(blocked, b, ops).Ok?
    ensures forall i :: 0 <= i < |ops| && ops[i].Pay? ==> !Blocked(blocked, ops[i].to)
    decreases |ops|
  {
    if ops != [] {
      NoBlockedRecipient(blocked, Apply(blocked, b, ops[0]).value, ops[1..]);
      forall i | 0 <= i < |ops| && ops[i].Pay? ensures !Blocked(blocked, ops[i].to) {
        if i > 0 { assert ops[i] == ops[1..][i - 1]; }
      }
    }
  }
}
