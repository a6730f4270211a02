/** The governance token (contracts/ERC20.sol). Balances are updated one account at a time with checked arithmetic; the
    conserved quantity is their sum. */
module Token {
  import opened Primitives
  import opened Sums
  import opened SplitDelegation
  import opened SupplyBounds

  datatype State = State(totalSupply: nat, balances: map<Address, nat>, allowances: map<(Address, Address), nat>) {
    function BalanceOf(a: Address): nat {
      if a in balances then balances[a] else 0
    }

    function Allowance(owner: Address, spender: Address): nat {
      if (owner, spender) in allowances then allowances[(owner, spender)] else 0
    }
  }

  datatype Op =
    | Transfer(sender: Address, recipient: Address, amount: U256)
    | Approve(owner: Address, spender: Address, amount: U256)
    | TransferFrom(spender: Address, sender: Address, recipient: Address, amount: U256)
    | Mint(to: Address, amount: U256)
    | Burn(from: Address, amount: U256)

  const DEPLOYED := State(0, map[], map[])

  function Debit(s: State, a: Address, amount: nat): Option<State> {
    if s.BalanceOf(a) < amount then None else Some(s.(balances := s.balances[a := s.BalanceOf(a) - amount]))
  }

  function Credit(s: State, a: Address, amount: nat): Option<State> {
    if s.BalanceOf(a) + amount > U256_MAX then None else Some(s.(balances := s.balances[a := s.BalanceOf(a) + amount]))
  }

  function Move(s: State, sender: Address, recipient: Address, amount: nat): Option<State> {
    var debited :- Debit(s, sender, amount);
    Credit(debited, recipient, amount)
  }

  /** One transaction; `None` is a revert. */
  function Step(s: State, op: Op): Option<State> {
    match op
    case Transfer(sender, recipient, amount) => Move(s, sender, recipient, amount)
    case Approve(owner, spender, amount) => Some(s.(allowances := s.allowances[(owner, spender) := amount]))
    case TransferFrom(spender, sender, recipient, amount) =>
      if s.Allowance(sender, spender) < amount then None
      else
        var left := s.Allowance(sender, spender) - amount;
        Move(s.(allowances := s.allowances[(sender, spender) := left]), sender, recipient, amount)
    case Mint(to, amount) =>
      var credited :- Credit(s, to, amount);
      if s.totalSupply + amount > U256_MAX then None else Some(credited.(totalSupply := s.totalSupply + amount))
    case Burn(from, amount) =>
      var debited :- Debit(s, from, amount);
      if s.totalSupply < amount then None else Some(debited.(totalSupply := s.totalSupply - amount))
  }

  function Run(s: State, ops: seq<Op>): State
    decreases |ops|
  {
    if ops == [] then s else Run(Step(s, ops[0]).GetOr(s), ops[1..])
  }

  // ---------- Conservation ----------

  ghost function Balances(m: map<Address, nat>): Address -> int {
    (a: Address) => if a in m then m[a] else 0
  }

  ghost function Circulating(s: State): int {
    SumOver(s.balances.Keys, Balances(s.balances))
  }

  ghost predicate Conserved(s: State) {
    Circulating(s) == s.totalSupply <= U256_MAX
  }

  lemma OneBalanceChanges(s: State, a: Address, n: nat)
    ensures Circulating(s.(balances := s.balances[a := n])) == Circulating(s) + n - s.BalanceOf(a)
  {
    var m := s.balances[a := n];
    assert m.Keys == s.balances.Keys + {a};
    SumOverPointChange(s.balances.Keys, Balances(s.balances), Balances(m), a);
  }

  lemma HoldersWithinCirculation(s: State, holders: set<Address>)
    ensures 0 <= SumOver(holders, Balances(s.balances)) <= Circulating(s)
  {
    var all := holders + s.balances.Keys;
    SumOverSubset(holders, all, Balances(s.balances));
    SumOverSupport(all, s.balances.Keys, Balances(s.balances));
  }

  lemma OneHolder(s: State, a: Address)
    ensures s.BalanceOf(a) <= Circulating(s)
  {
    HoldersWithinCirculation(s, {a});
    SumOverMember({a}, Balances(s.balances), a);
  }

  /** A transfer, to oneself included, moves exactly what the sender has: on a conserved state the credit never
      overflows. */
  lemma MoveConserves(s: State, sender: Address, recipient: Address, amount: nat)
    requires Conserved(s)
    ensures Move(s, sender, recipient, amount).Some? <==> amount <= s.BalanceOf(sender)
    ensures Move(s, sender, recipient, amount).Some? ==>
              && Conserved(Move(s, sender, recipient, amount).value)
              && Move(s, sender, recipient, amount).value.totalSupply == s.totalSupply
  {
    if amount <= s.BalanceOf(sender) {
      var debited := Debit(s, sender, amount).value;
      OneBalanceChanges(s, sender, s.BalanceOf(sender) - amount);
      OneHolder(debited, recipient);
      OneBalanceChanges(debited, recipient, debited.BalanceOf(recipient) + amount);
    }
  }

  /** Whose balance moves. A transfer between different accounts takes the amount from the sender and gives it to the
      recipient, and a transfer to oneself leaves every balance as it was; minting and burning change one balance and
      the supply by the amount. */
  lemma BalancesAfter(s: State, op: Op, a: Address)
    requires Step(s, op).Some?
    ensures var t := Step(s, op).value;
            match op
            case Transfer(sender, recipient, amount) =>
              t.totalSupply == s.totalSupply && Moved(s, t, sender, recipient, amount, a)
            case TransferFrom(_, sender, recipient, amount) =>
              t.totalSupply == s.totalSupply && Moved(s, t, sender, recipient, amount, a)
            case Approve(_, _, _) => t.totalSupply == s.totalSupply && t.BalanceOf(a) == s.BalanceOf(a)
            case Mint(to, amount) =>
              t.totalSupply == s.totalSupply + amount
              && t.BalanceOf(a) == s.BalanceOf(a) + (if a == to then amount else 0)
            case Burn(from, amount) =>
              t.totalSupply == s.totalSupply - amount
              && t.BalanceOf(a) == s.BalanceOf(a) - (if a == from then amount else 0)
  {
  }

  /** The balance of `a` after `amount` went from `sender` to `recipient`. */
  predicate Moved(s: State, t: State, sender: Address, recipient: Address, amount: nat, a: Address) {
    if sender == recipient then t.BalanceOf(a) == s.BalanceOf(a)
    else if a == sender then t.BalanceOf(a) == s.BalanceOf(a) - amount
    else if a == recipient then t.BalanceOf(a) == s.BalanceOf(a) + amount
    else t.BalanceOf(a) == s.BalanceOf(a)
  }

  /** Which allowance changes: an approval sets the one of owner and spender, a transfer by a spender lowers the one it
      uses, and nothing else touches any. */
  lemma AllowancesAfter(s: State, op: Op, owner: Address, spender: Address)
    requires Step(s, op).Some?
    ensures var t := Step(s, op).value;
            t.Allowance(owner, spender) ==
            match op
            case Approve(o, p, amount) => if o == owner && p == spender then amount else s.Allowance(owner, spender)
            case TransferFrom(p, sender, _, amount) =>
              if sender == owner &&
                p == spender then s.Allowance(owner, spender) - amount else s.Allowance(owner, spender)
            case _ => s.Allowance(owner, spender)
  {
  }

  /** When each transaction succeeds, in terms of what its sender can look up beforehand. */
  predicate Affordable(s: State, op: Op) {
    match op
    case Transfer(sender, _, amount) => amount <= s.BalanceOf(sender)
    case Approve(_, _, _) => true
    case TransferFrom(spender, sender, _, amount) =>
      amount <= s.Allowance(sender, spender) && amount <= s.BalanceOf(sender)
    case Mint(_, amount) => s.totalSupply + amount <= U256_MAX
    case Burn(from, amount) => amount <= s.BalanceOf(from)
  }

  lemma StepConserves(s: State, op: Op)
    requires Conserved(s)
    ensures Step(s, op).Some? <==> Affordable(s, op)
    ensures Step(s, op).Some? ==> Conserved(Step(s, op).value)
  {
    match op
    case Transfer(sender, recipient, amount) => MoveConserves(s, sender, recipient, amount);
    case Approve(_, _, _) =>
    case TransferFrom(spender, sender, recipient, amount) =>
      if amount <= s.Allowance(sender, spender) {
        MoveConserves(s.(allowances := s.allowances[(sender, spender) := s.Allowance(sender, spender) - amount]),
          sender, recipient, amount);
      }
    case Mint(to, amount) => MintConserves(s, to, amount);
    case Burn(from, amount) => BurnConserves(s, from, amount);
  }

  lemma MintConserves(s: State, to: Address, amount: U256)
    requires Conserved(s)
    ensures Step(s, Mint(to, amount)).Some? <==> s.totalSupply + amount <= U256_MAX
    ensures Step(s, Mint(to, amount)).Some? ==> Conserved(Step(s, Mint(to, amount)).value)
  {
    OneHolder(s, to);
    OneBalanceChanges(s, to, s.BalanceOf(to) + amount);
  }

  lemma BurnConserves(s: State, from: Address, amount: U256)
    requires Conserved(s)
    ensures Step(s, Burn(from, amount)).Some? <==> amount <= s.BalanceOf(from)
    ensures Step(s, Burn(from, amount)).Some? ==> Conserved(Step(s, Burn(from, amount)).value)
  {
    OneHolder(s, from);
    if amount <= s.BalanceOf(from) { OneBalanceChanges(s, from, s.BalanceOf(from) - amount); }
  }

  lemma {:induction false} RunConserves(s: State, ops: seq<Op>)
    requires Conserved(s)
    ensures Conserved(Run(s, ops))
    decreases |ops|
  {
    if ops != [] {
      StepConserves(s, ops[0]);
      RunConserves(Step(s, ops[0]).GetOr(s), ops[1..]);
    }
  }

  /** What a transaction adds to the balance of `a`. */
  function Flow(op: Op, a: Address): int {
    match op
    case Transfer(sender, recipient, amount) => Between(sender, recipient, amount, a)
    case TransferFrom(_, sender, recipient, amount) => Between(sender, recipient, amount, a)
    case Approve(_, _, _) => 0
    case Mint(to, amount) => if a == to then amount else 0
    case Burn(from, amount) => if a == from then 0 - amount else 0
  }

  function Between(sender: Address, recipient: Address, amount: nat, a: Address): int {
    (if a == recipient then amount else 0) - (if a == sender then amount else 0)
  }

  /** The flows of the transactions that succeed. */
  function NetFlow(s: State, ops: seq<Op>, a: Address): int
    decreases |ops|
  {
    if ops == [] then 0
    else (if Affordable(s, ops[0]) then Flow(ops[0], a) else 0) + NetFlow(Step(s, ops[0]).GetOr(s), ops[1..], a)
  }

  lemma {:induction false} RunFlows(s: State, ops: seq<Op>, a: Address)
    requires Conserved(s)
    ensures Run(s, ops).BalanceOf(a) == s.BalanceOf(a) + NetFlow(s, ops, a)
    decreases |ops|
  {
    if ops != [] {
      StepConserves(s, ops[0]);
      if Step(s, ops[0]).Some? { BalancesAfter(s, ops[0], a); }
      RunFlows(Step(s, ops[0]).GetOr(s), ops[1..], a);
    }
  }

  /** In every run from deployment, where nobody holds anything and nobody may spend for another, an account holds what
      flowed in less what flowed out in the transactions that could be afforded. */
  lemma BalanceIsNetFlow(ops: seq<Op>, a: Address, b: Address)
    ensures Run(DEPLOYED, ops).BalanceOf(a) == NetFlow(DEPLOYED, ops, a)
    ensures DEPLOYED.totalSupply == DEPLOYED.BalanceOf(a) == DEPLOYED.Allowance(a, b) == 0
  {
    assert DEPLOYED.balances.Keys == {};
    RunFlows(DEPLOYED, ops, a);
  }

  /** In every run from deployment the balances add up to the total supply, and no set of holders owns more. */
  lemma SupplyIsSumOfBalances(ops: seq<Op>, holders: set<Address>)
    ensures Circulating(Run(DEPLOYED, ops)) == Run(DEPLOYED, ops).totalSupply <= U256_MAX
    ensures SumOver(holders, Balances(Run(DEPLOYED, ops).balances)) <= Run(DEPLOYED, ops).totalSupply
  {
    assert DEPLOYED.balances.Keys == {};
    RunConserves(DEPLOYED, ops);
    HoldersWithinCirculation(Run(DEPLOYED, ops), holders);
  }

  /** The guests read this token: the power of an account is its balance and the supply is the token's. */
  ghost predicate ReadsToken(w: World, asset: Asset, s: State) {
    w.supply(asset) == s.totalSupply && forall a: Address :: w.power(asset, a) == s.BalanceOf(a)
  }

  /** An asset whose token was operated from deployment is backed, whatever the guests look up. */
  lemma TokenBacksAsset(w: World, asset: Asset, ops: seq<Op>)
    requires ReadsToken(w, asset, Run(DEPLOYED, ops))
    ensures Backed(w, asset)
  {
    var s := Run(DEPLOYED, ops);
    forall holders: set<Address> ensures SumOver(holders, PowerOf(w, asset)) <= w.supply(asset) {
      SupplyIsSumOfBalances(ops, holders);
      forall a | a in holders ensures PowerOf(w, asset)(a) == Balances(s.balances)(a) {
        assert w.power(asset, a) == s.BalanceOf(a);
      }
      SumOverCongruent(holders, PowerOf(w, asset), Balances(s.balances));
    }
  }

  /** The contract itself. */
  class ERC20 {
    var totalSupply: nat
    var balanceOf: map<Address, nat>
    var allowance: map<(Address, Address), nat>

    ghost function View(): State
      reads this
    {
      State(totalSupply, balanceOf, allowance)
    }

    constructor ()
      ensures View() == DEPLOYED
    {
      totalSupply, balanceOf, allowance := 0, map[], map[];
    }

    function Balance(a: Address): nat
      reads this
    {
      if a in balanceOf then balanceOf[a] else 0
    }

    function Allowed(owner: Address, spender: Address): nat
      reads this
    {
      if (owner, spender) in allowance then allowance[(owner, spender)] else 0
    }

    method Transfer(sender: Address, recipient: Address, amount: U256) returns (ok: bool)
      modifies this
      ensures ok == Step(old(View()), Op.Transfer(sender, recipient, amount)).Some?
      ensures View() == Step(old(View()), Op.Transfer(sender, recipient, amount)).GetOr(old(View()))
    {
      if Balance(sender) < amount { return false; }
      var saved := balanceOf;
      balanceOf := balanceOf[sender := Balance(sender) - amount];
      if Balance(recipient) + amount > U256_MAX { balanceOf := saved; return false; }
      balanceOf := balanceOf[recipient := Balance(recipient) + amount];
      return true;
    }

    method Approve(owner: Address, spender: Address, amount: U256) returns (ok: bool)
      modifies this
      ensures ok && View() == Step(old(View()), Op.Approve(owner, spender, amount)).value
    {
      allowance := allowance[(owner, spender) := amount];
      return true;
    }

    method TransferFrom(spender: Address, sender: Address, recipient: Address, amount: U256) returns (ok: bool)
      modifies this
      ensures ok == Step(old(View()), Op.TransferFrom(spender, sender, recipient, amount)).Some?
      ensures View() == Step(old(View()), Op.TransferFrom(spender, sender, recipient, amount)).GetOr(old(View()))
    {
      if Allowed(sender, spender) < amount { return false; }
      var saved := (balanceOf, allowance);
      allowance := allowance[(sender, spender) := Allowed(sender, spender) - amount];
      if Balance(sender) < amount { allowance := saved.1; return false; }
      balanceOf := balanceOf[sender := Balance(sender) - amount];
      if Balance(recipient) + amount > U256_MAX { balanceOf, allowance := saved.0, saved.1; return false; }
      balanceOf := balanceOf[recipient := Balance(recipient) + amount];
      return true;
    }

    method Mint(to: Address, amount: U256) returns (ok: bool)
      modifies this
      ensures ok == Step(old(View()), Op.Mint(to, amount)).Some?
      ensures View() == Step(old(View()), Op.Mint(to, amount)).GetOr(old(View()))
    {
      if Balance(to) + amount > U256_MAX { return false; }
      var saved := balanceOf;
      balanceOf := balanceOf[to := Balance(to) + amount];
      if totalSupply + amount > U256_MAX { balanceOf := saved; return false; }
      totalSupply := totalSupply + amount;
      return true;
    }

    method Burn(from: Address, amount: U256) returns (ok: bool)
      modifies this
      ensures ok == Step(old(View()), Op.Burn(from, amount)).Some?
      ensures View() == Step(old(View()), Op.Burn(from, amount)).GetOr(old(View()))
    {
      if Balance(from) < amount { return false; }
      var saved := balanceOf;
      balanceOf := balanceOf[from := Balance(from) - amount];
      if totalSupply < amount { balanceOf := saved; return false; }
      totalSupply := totalSupply - amount;
      return true;
    }
  }
}
