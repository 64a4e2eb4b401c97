/** Finite sums over accounts, and the two ledgers a settlement moves: BLOC token accounts and SOL. */
module Ledger {
  import opened Ints
  import opened Bytes
  import opened Wrappers

  type Pubkey = Bytes32

  /** The sum of a map's values. */
  ghost function Sum<K(!new)>(m: map<K, nat>): nat {
    if m == map[] then 0 else
      var k :| k in m;
      m[k] + Sum(m - {k})
  }

  lemma SumEmpty<K(!new)>(m: map<K, nat>)
    requires m.Keys == {}
    ensures Sum(m) == 0
  {
    assert m == map[];
  }

  /** The sum does not depend on which key is taken out first. */
  lemma {:induction false} SumRemove<K(!new)>(m: map<K, nat>, k: K)
    requires k in m
    ensures Sum(m) == m[k] + Sum(m - {k})
    decreases |m|
  {
    var j :| j in m && Sum(m) == m[j] + Sum(m - {j});
    if j != k {
      SumRemove(m - {j}, k);
      SumRemove(m - {k}, j);
      assert (m - {j}) - {k} == (m - {k}) - {j};
    }
  }

  /** Writing one entry shifts the sum by the difference. */
  lemma SumUpdate<K(!new)>(m: map<K, nat>, k: K, v: nat)
    ensures Sum(m[k := v]) == Sum(m) - (if k in m then m[k] else 0) + v
  {
    SumRemove(m[k := v], k);
    if k in m {
      SumRemove(m, k);
      assert m[k := v] - {k} == m - {k};
    } else {
      assert m[k := v] - {k} == m;
    }
  }

  /** No entry exceeds the sum. */
  lemma SumAtLeast<K(!new)>(m: map<K, nat>, k: K)
    requires k in m
    ensures m[k] <= Sum(m)
  {
    SumRemove(m, k);
  }

  /** Two different entries together do not exceed the sum. */
  lemma SumAtLeastTwo<K(!new)>(m: map<K, nat>, j: K, k: K)
    requires j in m && k in m && j != k
    ensures m[j] + m[k] <= Sum(m)
  {
    SumRemove(m, j);
    SumAtLeast(m - {j}, k);
  }

  /** A token account of the BLOC mint. */
  datatype TokenAccount = TokenAccount(owner: Pubkey, amount: u64)

  type Tokens = map<Pubkey, TokenAccount>

  function Amounts(t: Tokens): map<Pubkey, nat> {
    map k | k in t :: t[k].amount as nat
  }

  ghost function Supply(t: Tokens): nat {
    Sum(Amounts(t))
  }

  /** The token program's transfer: it fails when the source holds too little or the destination would
      overflow; a transfer to the same account moves nothing. */
  function Transfer(t: Tokens, from: Pubkey, to: Pubkey, amount: u64): Option<Tokens>
    requires from in t && to in t
  {
    if t[from].amount < amount then None
    else if from == to then Some(t)
    else if !FitsU64(t[to].amount + amount) then None
    else Some(t[from := t[from].(amount := t[from].amount - amount)]
              [to := t[to].(amount := t[to].amount + amount)])
  }

  lemma AmountsUpdate(t: Tokens, k: Pubkey, account: TokenAccount)
    ensures Amounts(t[k := account]) == Amounts(t)[k := account.amount]
  {}

  /** A transfer moves exactly the amount, keeps every owner and the total supply. */
  lemma TransferMoves(t: Tokens, from: Pubkey, to: Pubkey, amount: u64)
    requires from in t && to in t && Transfer(t, from, to, amount).Some?
    ensures var r := Transfer(t, from, to, amount).value;
      && r.Keys == t.Keys
      && Supply(r) == Supply(t)
      && (forall k :: k in t ==> r[k].owner == t[k].owner)
      && (forall k :: k in t && k != from && k != to ==> r[k] == t[k])
      && (from != to ==> r[from].amount == t[from].amount - amount && r[to].amount == t[to].amount + amount)
      && (from == to ==> r == t)
  {
    if from != to {
      var debited := t[from].(amount := t[from].amount - amount);
      var credited := t[to].(amount := t[to].amount + amount);
      AmountsUpdate(t, from, debited);
      SumUpdate(Amounts(t), from, debited.amount);
      AmountsUpdate(t[from := debited], to, credited);
      SumUpdate(Amounts(t[from := debited]), to, credited.amount);
    }
  }

  /** A transfer can only fail for lack of funds once the whole supply fits in a u64. */
  lemma TransferSucceeds(t: Tokens, from: Pubkey, to: Pubkey, amount: u64)
    requires from in t && to in t && Supply(t) <= U64_MAX
    ensures Transfer(t, from, to, amount).Some? <==> amount <= t[from].amount
  {
    if from != to { SumAtLeastTwo(Amounts(t), from, to); }
  }

  /** SOL balances; an address without an entry holds nothing. */
  type Lamports = map<Pubkey, nat>

  function Balance(l: Lamports, k: Pubkey): nat {
    if k in l then l[k] else 0
  }

  /** The system program's transfer. */
  function Pay(l: Lamports, from: Pubkey, to: Pubkey, amount: nat): Option<Lamports> {
    if Balance(l, from) < amount then None
    else
      var debited := l[from := Balance(l, from) - amount];
      Some(debited[to := Balance(debited, to) + amount])
  }

  /** A payment moves exactly the amount (nothing when payer and payee are one) and keeps the total. */
  lemma PayMoves(l: Lamports, from: Pubkey, to: Pubkey, amount: nat)
    requires Pay(l, from, to, amount).Some?
    ensures var r := Pay(l, from, to, amount).value;
      && Sum(r) == Sum(l)
      && (forall k :: k != from && k != to ==> Balance(r, k) == Balance(l, k))
      && (from != to ==> Balance(r, from) == Balance(l, from) - amount && Balance(r, to) == Balance(l, to) + amount)
      && (from == to ==> Balance(r, to) == Balance(l, to))
  {
    var debited := l[from := Balance(l, from) - amount];
    SumUpdate(l, from, Balance(l, from) - amount);
    SumUpdate(debited, to, Balance(debited, to) + amount);
  }
}
