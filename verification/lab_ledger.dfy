/** Lab 3 of the family-allowance program: the earlier version of the same
    ledger. Budgets are keyed by their name string, and the escalation
    policies only fire once a budget is used up (`spent >= total`), using
    the ratio `spent / total - 1`. The ratio bands therefore sit one whole
    total higher than in assignment 1. */
module LabLedger {
  import opened Wrappers
  import opened Ledger
  import FamLedger

  /** `BudgetCreator.BUDGET_CATEGORIES`. */
  const BudgetNames: seq<string> :=
    ["Games and Entertainment", "Clothing and Accessories", "Eating Out", "Miscellaneous"]

  /** Lab 3 names its budgets with the strings that assignment 1 later made
      the `BudgetCategory` values, in the same order. */
  lemma NamesMatchCategories()
    ensures |BudgetNames| == |FamLedger.Categories|
    ensures forall i :: 0 <= i < |BudgetNames| ==> BudgetNames[i] == FamLedger.CategoryName(FamLedger.Categories[i])
    ensures forall i, j :: 0 <= i < j < |BudgetNames| ==> BudgetNames[i] != BudgetNames[j]
  {
  }

  datatype BankAccount = BankAccount(kind: AccountKind, ledger: Account<string>)

  datatype Recorded = Recorded(outcome: Outcome<string>, account: BankAccount)

  /** `exceeded_ratio` of lab 3: by how much the total has been overrun. */
  function Overrun(b: Budget<string>): (r: real)
    requires b.total > 0.0
    ensures (r + 1.0) * b.total == b.spent
  {
    b.spent / b.total - 1.0
  }

  /** `spent / total - 1 > c` is `spent > (1 + c) * total`. */
  lemma OverrunAbove(b: Budget<string>, c: real)
    requires b.total > 0.0
    ensures Overrun(b) > c <==> b.spent > (1.0 + c) * b.total
  {
    RatioAbove(b.spent, b.total, 1.0 + c);
  }

  /** Angel: nothing below the total; beyond 1.9 times the total it warns
      at 90, otherwise it reports the budget exceeded. Never locks. */
  function AngelPolicy(a: Account<string>, k: string): (r: (Account<string>, seq<Event<string>>))
    requires k in a.budgets && a.budgets[k].total > 0.0
    ensures r.0 == a
    ensures var b := a.budgets[k];
      && (b.spent < b.total ==> r.1 == [])
      && (b.total <= b.spent <= 1.9 * b.total ==> r.1 == [Exceeded])
      && (b.spent > 1.9 * b.total ==> r.1 == [Warn(90)])
  {
    var b := a.budgets[k];
    OverrunAbove(b, 0.9);
    if b.spent >= b.total then
      if Overrun(b) > 0.9 then (a, [Warn(90)]) else (a, [Exceeded])
    else (a, [])
  }

  /** Troublemaker: beyond 2.2 times the total the budget is locked, beyond
      1.75 times it warns at 75, otherwise (once used up) it reports the
      budget exceeded. Never locks the account. */
  function TroublemakerPolicy(a: Account<string>, k: string): (r: (Account<string>, seq<Event<string>>))
    requires k in a.budgets && a.budgets[k].total > 0.0
    ensures OnlyLocks(a, r.0) && r.0.locked == a.locked
    ensures var b := a.budgets[k];
      && (b.spent < b.total ==> r.1 == [])
      && (b.spent <= 2.2 * b.total ==> r.0 == a)
      && (b.spent > 2.2 * b.total ==> r.0.budgets[k].locked && r.1 == [BudgetLockedNow(k)])
      && (1.75 * b.total < b.spent <= 2.2 * b.total ==> r.1 == [Warn(75)])
      && (b.total <= b.spent <= 1.75 * b.total ==> r.1 == [Exceeded])
    ensures forall j :: j in a.budgets && j != k ==> r.0.budgets[j] == a.budgets[j]
  {
    var b := a.budgets[k];
    OverrunAbove(b, 1.2);
    OverrunAbove(b, 0.75);
    if b.spent >= b.total then
      var over := Overrun(b);
      if over > 1.2 then (LockBudget(a, k), [BudgetLockedNow(k)])
      else if over > 0.75 then (a, [Warn(75)])
      else (a, [Exceeded])
    else (a, [])
  }

  /** Rebel: beyond twice the total the budget is locked, and the account
      too once two budgets are locked; beyond 1.5 times it warns at 50;
      otherwise (once used up) it reports the budget exceeded. */
  function RebelPolicy(a: Account<string>, k: string): (r: (Account<string>, seq<Event<string>>))
    requires k in a.budgets && a.budgets[k].total > 0.0
    ensures OnlyLocks(a, r.0)
    ensures var b := a.budgets[k];
      && (b.spent < b.total ==> r.1 == [])
      && (b.spent <= 2.0 * b.total ==> r.0 == a)
      && (b.spent > 2.0 * b.total ==>
            && r.0.budgets[k].locked
            && (r.0.locked <==> a.locked || LockedCount(r.0.budgets) >= 2)
            && r.1 == [BudgetLockedNow(k)] + (if LockedCount(r.0.budgets) >= 2 then [AccountLockedNow] else []))
      && (1.5 * b.total < b.spent <= 2.0 * b.total ==> r.1 == [Warn(50)])
      && (b.total <= b.spent <= 1.5 * b.total ==> r.1 == [Exceeded])
    ensures r.0.locked && !a.locked ==> LockedCount(r.0.budgets) >= 2
    ensures forall j :: j in a.budgets && j != k ==> r.0.budgets[j] == a.budgets[j]
  {
    var b := a.budgets[k];
    OverrunAbove(b, 1.0);
    OverrunAbove(b, 0.5);
    if b.spent >= b.total then
      var over := Overrun(b);
      if over > 1.0 then
        var locked := LockBudget(a, k);
        if LockedCount(locked.budgets) >= 2 then
          (locked.(locked := true), [BudgetLockedNow(k), AccountLockedNow])
        else (locked, [BudgetLockedNow(k)])
      else if over > 0.5 then (a, [Warn(50)])
      else (a, [Exceeded])
    else (a, [])
  }

  /** `warn_and_lock_if_needed`, dispatched on the account's subclass. */
  function Escalate(kind: AccountKind, a: Account<string>, k: string): (r: (Account<string>, seq<Event<string>>))
    requires k in a.budgets && a.budgets[k].total > 0.0
    ensures OnlyLocks(a, r.0)
    ensures r.0.locked && !a.locked ==> kind == RebelAccount && LockedCount(r.0.budgets) >= 2
    ensures a.budgets[k].spent < a.budgets[k].total ==> r == (a, [])
  {
    match kind
    case AngelAccount => AngelPolicy(a, k)
    case TroublemakerAccount => TroublemakerPolicy(a, k)
    case RebelAccount => RebelPolicy(a, k)
  }

  /** `BankAccount.record_transaction` of lab 3: the same ordered checks as
      assignment 1 and no change on rejection; acceptance appends, debits
      and credits, then runs the lab-3 policy. */
  function RecordTransaction(acct: BankAccount, tx: Transaction<string>): (r: Recorded)
    requires PositiveTotals(acct.ledger.budgets)
    ensures r.account.kind == acct.kind
    ensures PositiveTotals(r.account.ledger.budgets)
    ensures var a := acct.ledger;
      && (a.locked ==> r.outcome == Rejected(AccountLocked))
      && (!a.locked && tx.amount > a.balance ==> r.outcome == Rejected(InsufficientBalance))
      && (!a.locked && tx.amount <= a.balance && tx.category !in a.budgets ==> r.outcome == Rejected(MissingBudget))
      && (var admissible := !a.locked && tx.amount <= a.balance && tx.category in a.budgets;
          && (admissible && a.budgets[tx.category].locked ==> r.outcome == Rejected(BudgetLocked))
          && (admissible && !a.budgets[tx.category].locked ==> r.outcome.Accepted?))
    ensures r.outcome.Rejected? ==> r.account == acct
    ensures var a := acct.ledger; var a' := r.account.ledger;
      r.outcome.Accepted? ==>
        && a'.history == a.history + [tx]
        && a'.balance == a.balance - tx.amount
        && a'.budgets.Keys == a.budgets.Keys
        && a'.budgets[tx.category].spent == a.budgets[tx.category].spent + tx.amount
        && (forall k :: k in a.budgets && k != tx.category ==> a'.budgets[k].spent == a.budgets[k].spent)
    ensures acct.ledger.locked ==> r.account.ledger.locked
    ensures forall k :: k in acct.ledger.budgets && acct.ledger.budgets[k].locked ==> r.account.ledger.budgets[k].locked
    ensures r.outcome.Accepted? ==>
              forall k :: k in acct.ledger.budgets && k != tx.category ==>
                r.account.ledger.budgets[k] == acct.ledger.budgets[k]
    ensures r.outcome.Accepted? ==>
              (r.account.ledger, r.outcome.events) == Escalate(acct.kind, Admit(acct.ledger, tx).value, tx.category)
  {
    match Admit(acct.ledger, tx)
    case Err(why) => Recorded(Rejected(why), acct)
    case Ok(admitted) =>
      var (after, events) := Escalate(acct.kind, admitted, tx.category);
      Recorded(Accepted(events), acct.(ledger := after))
  }

  /** No policy fires while the budget is not used up: the call is then a
      plain debit with no events. */
  lemma QuietBelowTotal(acct: BankAccount, tx: Transaction<string>)
    requires PositiveTotals(acct.ledger.budgets)
    requires RecordTransaction(acct, tx).outcome.Accepted?
    requires acct.ledger.budgets[tx.category].spent + tx.amount < acct.ledger.budgets[tx.category].total
    ensures RecordTransaction(acct, tx).outcome.events == []
    ensures RecordTransaction(acct, tx).account.ledger == Admit(acct.ledger, tx).value
  {
  }

  /** The ledger invariant holds across every call, as in assignment 1. */
  lemma RecordTransactionConsistent(opening: real, acct: BankAccount, tx: Transaction<string>)
    requires PositiveTotals(acct.ledger.budgets)
    requires Consistent(opening, acct.ledger) && acct.ledger.balance >= 0.0
    ensures Consistent(opening, RecordTransaction(acct, tx).account.ledger)
    ensures RecordTransaction(acct, tx).account.ledger.balance >= 0.0
  {
    match Admit(acct.ledger, tx)
    case Err(_) =>
    case Ok(admitted) =>
      AdmitConsistent(opening, acct.ledger, tx);
      var (after, _) := Escalate(acct.kind, admitted, tx.category);
      OnlyLocksConsistent(opening, admitted, after);
  }

  /** The two versions' bands mean different spending levels: a
      Troublemaker budget spent beyond 1.2 times its total but not beyond
      1.75 times is locked by assignment 1 and only reported exceeded by
      lab 3. */
  lemma TroublemakerBandsDiffer(spent: real, total: real)
    requires total > 0.0 && 1.2 * total < spent <= 1.75 * total
    ensures var b := Budget("Eating Out", total, spent, false);
      var a := Account("1", "B", 0.0, false, [], map["Eating Out" := b]);
      var fb := Budget(FamLedger.EatingOut, total, spent, false);
      var fa := Account("1", "B", 0.0, false, [], map[FamLedger.EatingOut := fb]);
      && FamLedger.TroublemakerPolicy(fa, FamLedger.EatingOut).0.budgets[FamLedger.EatingOut].locked
      && !TroublemakerPolicy(a, "Eating Out").0.budgets["Eating Out"].locked
  {
  }

  /** `create_bank_account` of lab 3 compares the IntEnum with `==`: 1 and 2
      select Angel and Troublemaker, and anything else falls through to
      Rebel. */
  function KindForValue(n: int): (r: AccountKind)
    ensures r == AngelAccount <==> n == 1
    ensures r == TroublemakerAccount <==> n == 2
    ensures r == RebelAccount <==> n != 1 && n != 2
  {
    if n == UserTypeValue(Angel) then AngelAccount
    else if n == UserTypeValue(Troublemaker) then TroublemakerAccount
    else RebelAccount
  }

  /** On the three real user types both versions pick the same subclass;
      assignment 1 raises where lab 3 falls through to Rebel. */
  lemma DispatchAgrees(n: int)
    ensures 1 <= n <= 3 ==> FamLedger.KindForValue(n) == Some(KindForValue(n))
    ensures !(1 <= n <= 3) ==> FamLedger.KindForValue(n).None? && KindForValue(n) == RebelAccount
  {
  }

  /** `create_budgets`: one budget per name, with the accepted amounts. */
  function CreateBudgets(totals: seq<real>): (m: map<string, Budget<string>>)
    requires |totals| == |BudgetNames|
    requires forall i :: 0 <= i < |totals| ==> totals[i] > 0.0
    ensures m.Keys == set i | 0 <= i < |BudgetNames| :: BudgetNames[i]
    ensures PositiveTotals(m)
    ensures forall i :: 0 <= i < |BudgetNames| ==> m[BudgetNames[i]] == NewBudget(BudgetNames[i], totals[i])
  {
    var m := BuildManager(BudgetNames, totals);
    forall i | 0 <= i < |BudgetNames|
      ensures m[BudgetNames[i]] == NewBudget(BudgetNames[i], totals[i])
    {
      NamesMatchCategories();
      BuildManagerLastWins(BudgetNames, totals, i);
    }
    m
  }

  /** `load_test_budgets`: every name budgeted at 100. */
  function TestBudgets(): (m: map<string, Budget<string>>)
    ensures m.Keys == set i | 0 <= i < |BudgetNames| :: BudgetNames[i]
    ensures forall i :: 0 <= i < |BudgetNames| ==> m[BudgetNames[i]] == NewBudget(BudgetNames[i], 100.0)
  {
    CreateBudgets([100.0, 100.0, 100.0, 100.0])
  }

  /** `execute_budgets_menu` after the user's accepted choice. */
  function MenuName(choice: int): (r: Option<string>)
    ensures r.Some? <==> 1 <= choice <= |BudgetNames|
    ensures r.Some? ==> r.value == BudgetNames[choice - 1]
  {
    if 1 <= choice <= |BudgetNames| then Some(BudgetNames[choice - 1]) else None
  }

  /** `load_test_account`. */
  function TestAccount(): (r: BankAccount)
    ensures r.kind == TroublemakerAccount
    ensures r.ledger.number == "123123" && r.ledger.bank == "HSBC" && r.ledger.balance == 1000.0
    ensures Fresh(r.ledger) && PositiveTotals(r.ledger.budgets)
    ensures Consistent(1000.0, r.ledger)
  {
    var r := BankAccount(TroublemakerAccount, Account("123123", "HSBC", 1000.0, false, [], TestBudgets()));
    FreshConsistent(r.ledger);
    r
  }
}
