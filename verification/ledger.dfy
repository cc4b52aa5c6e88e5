/** The spending ledger shared by both versions of the family-allowance
    program: budgets, transactions, a bank account that owns them, and the
    part of `record_transaction` that is identical in both versions (the
    three ordered rejection checks, then append / debit / credit). The
    per-profile escalation policies live in `FamLedger` (assignment 1) and
    `LabLedger` (lab 3).

    Money is `real`: the source uses Python floats, and float rounding is
    not modelled. Budgets are keyed by `K`: the `BudgetCategory` enum in
    assignment 1, the budget name string in lab 3. */
module Ledger {
  import opened Wrappers

  /** `UserType`, an IntEnum with values 1, 2 and 3 in both versions. */
  datatype UserType = Angel | Troublemaker | Rebel

  function UserTypeValue(u: UserType): (n: int)
    ensures 1 <= n <= 3
  {
    match u
    case Angel => 1
    case Troublemaker => 2
    case Rebel => 3
  }

  /** `UserType(n)`: None where the enum constructor raises ValueError. */
  function UserTypeOf(n: int): (r: Option<UserType>)
    ensures r.Some? <==> 1 <= n <= 3
    ensures r.Some? ==> UserTypeValue(r.value) == n
  {
    if n == 1 then Some(Angel)
    else if n == 2 then Some(Troublemaker)
    else if n == 3 then Some(Rebel)
    else None
  }

  /** Enum value and enum constructor are inverse to each other. */
  lemma UserTypeRoundTrip(u: UserType, n: int)
    ensures UserTypeOf(UserTypeValue(u)) == Some(u)
    ensures UserTypeOf(n).Some? ==> UserTypeValue(UserTypeOf(n).value) == n
  {
  }

  /** The child whose spending is governed. */
  datatype User = User(name: string, age: int, userType: UserType)

  /** The three bank-account subclasses, one escalation policy each. */
  datatype AccountKind = AngelAccount | TroublemakerAccount | RebelAccount

  /** A budget: allotted `total`, amount `spent` so far, and a lock flag. */
  datatype Budget<K> = Budget(key: K, total: real, spent: real, locked: bool)

  /** A recorded purchase; the timestamp is an opaque instant. */
  datatype Transaction<K> = Transaction(timestamp: int, amount: real, category: K, shop: string)

  /** A bank account: balance, lock flag, history in recording order and
      the budget manager's dictionary (category -> budget). */
  datatype Account<K> = Account(
    number: string,
    bank: string,
    balance: real,
    locked: bool,
    history: seq<Transaction<K>>,
    budgets: map<K, Budget<K>>)

  /** Why `record_transaction` returned False. `MissingBudget` is the
      category absent from the manager: `get_budget` returns None there and
      the next line raises AttributeError. */
  datatype Rejection = AccountLocked | InsufficientBalance | BudgetLocked | MissingBudget

  /** What the escalation step reported, in the order it reported it. */
  datatype Event<K> =
    | Warn(percent: int)
    | Notify
    | Exceeded
    | BudgetLockedNow(category: K)
    | Review(transactions: seq<Transaction<K>>)
    | AccountLockedNow

  /** The result of one `record_transaction` call: the returned bool is
      `Accepted?`, and `account` is the account's state afterwards. */
  datatype Outcome<K> = Rejected(reason: Rejection) | Accepted(events: seq<Event<K>>)

  datatype Step<K> = Step(outcome: Outcome<K>, account: Account<K>)

  /** A new budget, as `Budget.__init__` builds it. */
  function NewBudget<K>(key: K, total: real): (b: Budget<K>)
    ensures b.spent == 0.0 && !b.locked
    ensures b.key == key && b.total == total
  {
    Budget(key, total, 0.0, false)
  }

  /** `Budget.lock`: sets the flag and touches nothing else. */
  function Lock<K>(b: Budget<K>): (r: Budget<K>)
    ensures r.locked
    ensures r.key == b.key && r.total == b.total && r.spent == b.spent
  {
    b.(locked := true)
  }

  /** Locking is idempotent: there is no unlock, and locking twice is
      locking once. */
  lemma LockIdempotent<K>(b: Budget<K>)
    ensures Lock(Lock(b)) == Lock(b)
    ensures b.locked ==> Lock(b) == b
  {
  }

  /** `BudgetManager.add_budget`: keyed by the budget's own key, replacing
      any earlier budget with that key. */
  function AddBudget<K>(m: map<K, Budget<K>>, b: Budget<K>): (r: map<K, Budget<K>>)
    ensures r.Keys == m.Keys + {b.key}
    ensures r[b.key] == b
    ensures forall k :: k in m && k != b.key ==> r[k] == m[k]
  {
    m[b.key := b]
  }

  /** A manager filled by calling `add_budget` once per key, in order, as
      the budget creators do. */
  function BuildManager<K>(keys: seq<K>, totals: seq<real>): (m: map<K, Budget<K>>)
    requires |keys| == |totals|
    ensures m.Keys == set i | 0 <= i < |keys| :: keys[i]
    ensures forall k :: k in m ==> m[k].key == k && m[k].spent == 0.0 && !m[k].locked
  {
    if |keys| == 0 then map[]
    else
      var n := |keys| - 1;
      var m0 := BuildManager(keys[..n], totals[..n]);
      assert forall i :: 0 <= i < n ==> keys[..n][i] == keys[i];
      AddBudget(m0, NewBudget(keys[n], totals[n]))
  }

  /** Each key ends up with the total given at its last occurrence: a key
      added again replaces the earlier budget. */
  lemma {:induction false} BuildManagerLastWins<K>(keys: seq<K>, totals: seq<real>, i: nat)
    requires |keys| == |totals| && i < |keys|
    requires forall j :: i < j < |keys| ==> keys[j] != keys[i]
    ensures BuildManager(keys, totals)[keys[i]] == NewBudget(keys[i], totals[i])
  {
    var n := |keys| - 1;
    if i < n {
      assert forall j :: i < j < n ==> keys[..n][j] == keys[j];
      BuildManagerLastWins(keys[..n], totals[..n], i);
    }
  }

  /** `BudgetManager.get_budget`: None for an absent key. */
  function GetBudget<K>(m: map<K, Budget<K>>, k: K): (r: Option<Budget<K>>)
    ensures r.None? <==> k !in m
    ensures r.Some? ==> r.value == m[k]
  {
    if k in m then Some(m[k]) else None
  }

  function LockedKeys<K>(m: map<K, Budget<K>>): set<K> {
    set k | k in m && m[k].locked
  }

  lemma {:induction false} SubsetCard<T>(a: set<T>, b: set<T>)
    requires a <= b
    ensures |a| <= |b|
    decreases |b|
  {
    if a != {} {
      var x :| x in a;
      SubsetCard(a - {x}, b - {x});
    }
  }

  /** `BudgetManager.no_locked_budgets`: how many stored budgets are locked. */
  function LockedCount<K>(m: map<K, Budget<K>>): (n: nat)
    ensures n <= |m|
    ensures n == 0 <==> forall k :: k in m ==> !m[k].locked
  {
    SubsetCard(LockedKeys(m), m.Keys);
    assert |m.Keys| == |m|;
    if forall k :: k in m ==> !m[k].locked then
      assert LockedKeys(m) == {};
      0
    else
      var k :| k in m && m[k].locked;
      assert k in LockedKeys(m);
      |LockedKeys(m)|
  }

  /** Locking one budget that was unlocked raises the count by exactly one. */
  lemma LockedCountAfterLock<K>(m: map<K, Budget<K>>, k: K)
    requires k in m && !m[k].locked
    ensures LockedCount(m[k := Lock(m[k])]) == LockedCount(m) + 1
  {
    var m' := m[k := Lock(m[k])];
    assert LockedKeys(m') == LockedKeys(m) + {k};
    assert k in LockedKeys(m');
  }

  /** `get_transactions_by_budget`: the history entries of one category. */
  function ByCategory<K(==,!new)>(h: seq<Transaction<K>>, k: K): (r: seq<Transaction<K>>)
    ensures |r| <= |h|
    ensures forall t :: t in r <==> t in h && t.category == k
  {
    if |h| == 0 then []
    else ByCategory(h[..|h| - 1], k) + (if h[|h| - 1].category == k then [h[|h| - 1]] else [])
  }

  /** Filtering keeps recording order: a newly recorded transaction appears
      at the end of its own category's list and nowhere else. */
  lemma ByCategoryAppend<K(!new)>(h: seq<Transaction<K>>, t: Transaction<K>, k: K)
    ensures ByCategory(h + [t], k) == ByCategory(h, k) + (if t.category == k then [t] else [])
  {
    assert (h + [t])[..|h|] == h;
  }

  /** The sum of the amounts of `h`. */
  function Spent<K>(h: seq<Transaction<K>>): real {
    if |h| == 0 then 0.0 else Spent(h[..|h| - 1]) + h[|h| - 1].amount
  }

  /** The sum of the amounts of the entries of `h` in category `k`. */
  function SpentOn<K(==,!new)>(h: seq<Transaction<K>>, k: K): real {
    Spent(ByCategory(h, k))
  }

  lemma SpentAppend<K>(h: seq<Transaction<K>>, t: Transaction<K>)
    ensures Spent(h + [t]) == Spent(h) + t.amount
  {
    assert (h + [t])[..|h|] == h;
  }

  lemma SpentOnAppend<K(!new)>(h: seq<Transaction<K>>, t: Transaction<K>, k: K)
    ensures SpentOn(h + [t], k) == SpentOn(h, k) + (if t.category == k then t.amount else 0.0)
  {
    ByCategoryAppend(h, t, k);
    if t.category == k {
      SpentAppend(ByCategory(h, k), t);
    } else {
      assert ByCategory(h, k) + [] == ByCategory(h, k);
    }
  }

  /** `spent / total > c` is `spent > c * total` once `total` is positive:
      the policies' ratio bands are spending levels. */
  lemma RatioAbove(spent: real, total: real, c: real)
    requires total > 0.0
    ensures spent / total > c <==> spent > c * total
  {
    var q := spent / total;
    assert q * total == spent;
    if q > c {
      assert q * total > c * total;
    } else {
      assert q * total <= c * total;
    }
  }

  /** Every budget total is positive, as the budget creators guarantee. This
      is what makes the `spent / total` ratio defined. */
  predicate PositiveTotals<K>(m: map<K, Budget<K>>) {
    forall k :: k in m ==> m[k].total > 0.0
  }

  /** The ledger invariant relative to the opening balance:
      - money is conserved: opening = balance + everything recorded;
      - each budget's spent is the sum of the history entries in its
        category, and each budget is stored under its own key;
      - a locked account always has at least two locked budgets. */
  ghost predicate Consistent<K(!new)>(opening: real, a: Account<K>) {
    && opening == a.balance + Spent(a.history)
    && (forall k :: k in a.budgets ==> a.budgets[k].key == k && a.budgets[k].spent == SpentOn(a.history, k))
    && (a.locked ==> LockedCount(a.budgets) >= 2)
  }

  /** The state change allowed to an escalation policy: only lock flags go
      from false to true; money, history and the set of budgets stay. */
  ghost predicate OnlyLocks<K>(a: Account<K>, a': Account<K>) {
    && a'.number == a.number && a'.bank == a.bank
    && a'.balance == a.balance && a'.history == a.history
    && (a.locked ==> a'.locked)
    && a'.budgets.Keys == a.budgets.Keys
    && (forall k :: k in a.budgets ==>
          a'.budgets[k] == a.budgets[k] || a'.budgets[k] == Lock(a.budgets[k]))
  }

  /** Lock one budget and leave everything else as it was: assignment 1's
      `_lock_budget`, and lab 3's inline `budget.locked = True` (its locked
      count is recomputed from the flags, so the effect is the same). */
  function LockBudget<K>(a: Account<K>, k: K): (r: Account<K>)
    requires k in a.budgets
    ensures OnlyLocks(a, r)
    ensures r.budgets[k].locked && r.locked == a.locked
    ensures forall j :: j in a.budgets && j != k ==> r.budgets[j] == a.budgets[j]
  {
    a.(budgets := a.budgets[k := Lock(a.budgets[k])])
  }

  lemma OnlyLocksTransitive<K>(a: Account<K>, b: Account<K>, c: Account<K>)
    requires OnlyLocks(a, b) && OnlyLocks(b, c)
    ensures OnlyLocks(a, c)
  {
  }

  /** The common first half of `record_transaction`: the three checks in
      source order (account locked, amount above balance, budget locked);
      on success the transaction is appended, the balance debited and the
      category's spent credited. */
  function Admit<K>(a: Account<K>, tx: Transaction<K>): (r: Result<Account<K>, Rejection>)
    ensures a.locked <==> r == Err(AccountLocked)
    ensures (!a.locked && tx.amount > a.balance) <==> r == Err(InsufficientBalance)
    ensures (!a.locked && tx.amount <= a.balance && tx.category !in a.budgets) <==> r == Err(MissingBudget)
    ensures (!a.locked && tx.amount <= a.balance && tx.category in a.budgets
             && a.budgets[tx.category].locked) <==> r == Err(BudgetLocked)
    ensures r.Ok? ==> tx.category in a.budgets && !a.budgets[tx.category].locked && !a.locked
    ensures r.Ok? ==> && r.value.history == a.history + [tx]
                      && r.value.balance == a.balance - tx.amount
                      && r.value.locked == a.locked
                      && r.value.number == a.number && r.value.bank == a.bank
                      && r.value.budgets.Keys == a.budgets.Keys
    ensures r.Ok? ==> && r.value.budgets[tx.category].spent == a.budgets[tx.category].spent + tx.amount
                      && r.value.budgets[tx.category].total == a.budgets[tx.category].total
                      && r.value.budgets[tx.category].key == a.budgets[tx.category].key
                      && !r.value.budgets[tx.category].locked
    ensures r.Ok? ==> forall k :: k in a.budgets && k != tx.category ==> r.value.budgets[k] == a.budgets[k]
  {
    if a.locked then Err(AccountLocked)
    else if tx.amount > a.balance then Err(InsufficientBalance)
    else match GetBudget(a.budgets, tx.category)
      case None => Err(MissingBudget)
      case Some(b) =>
        if b.locked then Err(BudgetLocked)
        else
          Ok(a.(history := a.history + [tx],
                balance := a.balance - tx.amount,
                budgets := a.budgets[tx.category := b.(spent := b.spent + tx.amount)]))
  }

  /** Admitting a transaction keeps the ledger consistent, keeps the
      balance non-negative, and never unlocks anything. */
  lemma AdmitConsistent<K(!new)>(opening: real, a: Account<K>, tx: Transaction<K>)
    requires Consistent(opening, a)
    requires Admit(a, tx).Ok?
    ensures Consistent(opening, Admit(a, tx).value)
    ensures a.balance >= 0.0 ==> Admit(a, tx).value.balance >= 0.0
  {
    var a' := Admit(a, tx).value;
    SpentAppend(a.history, tx);
    forall k | k in a'.budgets
      ensures a'.budgets[k].key == k && a'.budgets[k].spent == SpentOn(a'.history, k)
    {
      SpentOnAppend(a.history, tx, k);
    }
  }

  /** A policy step that only sets lock flags, and sets the account's only
      when two budgets are locked, keeps the ledger consistent. */
  lemma OnlyLocksConsistent<K(!new)>(opening: real, a: Account<K>, a': Account<K>)
    requires Consistent(opening, a)
    requires OnlyLocks(a, a')
    requires a'.locked && !a.locked ==> LockedCount(a'.budgets) >= 2
    ensures Consistent(opening, a')
  {
    forall k | k in a'.budgets
      ensures a'.budgets[k].key == k && a'.budgets[k].spent == SpentOn(a'.history, k)
    {
      assert a'.budgets[k] == a.budgets[k] || a'.budgets[k] == Lock(a.budgets[k]);
    }
    if a.locked {
      LockedCountGrows(a.budgets, a'.budgets);
    }
  }

  /** Setting lock flags never lowers the number of locked budgets. */
  lemma LockedCountGrows<K>(m: map<K, Budget<K>>, m': map<K, Budget<K>>)
    requires m'.Keys == m.Keys
    requires forall k :: k in m ==> m'[k] == m[k] || m'[k] == Lock(m[k])
    ensures LockedCount(m) <= LockedCount(m')
  {
    assert LockedKeys(m) <= LockedKeys(m');
    SubsetCard(LockedKeys(m), LockedKeys(m'));
    assert LockedCount(m) <= |LockedKeys(m)|;
    assert LockedCount(m') == |LockedKeys(m')| by {
      if LockedCount(m') == 0 {
        assert LockedKeys(m') == {};
      }
    }
  }

  /** A freshly opened account: no history, unlocked, every budget unspent
      and unlocked. */
  predicate Fresh<K>(a: Account<K>) {
    && |a.history| == 0 && !a.locked
    && forall k :: k in a.budgets ==> a.budgets[k].key == k && a.budgets[k].spent == 0.0 && !a.budgets[k].locked
  }

  lemma FreshConsistent<K(!new)>(a: Account<K>)
    requires Fresh(a)
    ensures Consistent(a.balance, a)
  {
  }
}
