/** Assignment 1 of the family-allowance program: budgets keyed by the
    `BudgetCategory` enum, the exceeded ratio `spent / total`, and the
    three escalation policies run after every accepted transaction. */
module FamLedger {
  import opened Wrappers
  import opened Ledger

  /** `BudgetCategory`, in declaration order. */
  datatype Category = GamesAndEntertainment | ClothingAndAccessories | EatingOut | Miscellaneous

  const Categories: seq<Category> :=
    [GamesAndEntertainment, ClothingAndAccessories, EatingOut, Miscellaneous]

  /** The enum's value, which is also the budget's `name`. */
  function CategoryName(c: Category): string {
    match c
    case GamesAndEntertainment => "Games and Entertainment"
    case ClothingAndAccessories => "Clothing and Accessories"
    case EatingOut => "Eating Out"
    case Miscellaneous => "Miscellaneous"
  }

  /** `list(BudgetCategory)` lists every member exactly once. */
  lemma CategoriesComplete(c: Category)
    ensures c in Categories
    ensures forall i, j :: 0 <= i < j < |Categories| ==> Categories[i] != Categories[j]
  {
  }

  /** A bank account together with the subclass that governs it. */
  datatype BankAccount = BankAccount(kind: AccountKind, ledger: Account<Category>)

  /** The state of one `record_transaction` call: its outcome, and the
      account afterwards. */
  datatype Recorded = Recorded(outcome: Outcome<Category>, account: BankAccount)

  /** `Budget.exceeded_ratio`. */
  function ExceededRatio(b: Budget<Category>): (r: real)
    requires b.total > 0.0
    ensures r * b.total == b.spent
  {
    b.spent / b.total
  }

  /** `_user_type_mapper`: a dict lookup that raises KeyError for a key
      that is not a `UserType`, modelled on the enum's integer value. */
  function KindForValue(n: int): (r: Option<AccountKind>)
    ensures r.Some? <==> 1 <= n <= 3
    ensures n == 1 ==> r == Some(AngelAccount)
    ensures n == 2 ==> r == Some(TroublemakerAccount)
    ensures n == 3 ==> r == Some(RebelAccount)
  {
    match UserTypeOf(n)
    case None => None
    case Some(u) => Some(KindFor(u))
  }

  function KindFor(u: UserType): AccountKind {
    match u
    case Angel => AngelAccount
    case Troublemaker => TroublemakerAccount
    case Rebel => RebelAccount
  }

  /** Every user type has its own account kind and every kind is reached. */
  lemma KindForBijective(u: UserType, v: UserType, k: AccountKind)
    ensures KindFor(u) == KindFor(v) ==> u == v
    ensures exists w :: KindFor(w) == k
  {
    match k
    case AngelAccount => assert KindFor(Angel) == k;
    case TroublemakerAccount => assert KindFor(Troublemaker) == k;
    case RebelAccount => assert KindFor(Rebel) == k;
  }

  /** The review listing printed with every notice: the category's
      transactions, the new one included. */
  function ReviewOf(a: Account<Category>, k: Category): Event<Category> {
    Review(ByCategory(a.history, k))
  }

  /** Angel: never locks anything. Over the total it notifies, above 90% it
      warns at 90, and each notice comes with the review listing. */
  function AngelPolicy(a: Account<Category>, k: Category): (r: (Account<Category>, seq<Event<Category>>))
    requires k in a.budgets && a.budgets[k].total > 0.0
    ensures r.0 == a
    ensures var b := a.budgets[k];
      && (b.spent > b.total ==> r.1 == [Notify, ReviewOf(a, k)])
      && (0.9 * b.total < b.spent <= b.total ==> r.1 == [Warn(90), ReviewOf(a, k)])
      && (b.spent <= 0.9 * b.total ==> r.1 == [])
  {
    var b := a.budgets[k];
    RatioAbove(b.spent, b.total, 1.0);
    RatioAbove(b.spent, b.total, 0.9);
    var ratio := ExceededRatio(b);
    if ratio > 1.0 then (a, [Notify, ReviewOf(a, k)])
    else if ratio > 0.9 then (a, [Warn(90), ReviewOf(a, k)])
    else (a, [])
  }

  /** Troublemaker: above 120% the budget is locked (with no separate
      notification), above 100% it notifies, above 75% it warns at 75. The
      account itself is never locked. */
  function TroublemakerPolicy(a: Account<Category>, k: Category): (r: (Account<Category>, seq<Event<Category>>))
    requires k in a.budgets && a.budgets[k].total > 0.0
    ensures OnlyLocks(a, r.0) && r.0.locked == a.locked
    ensures var b := a.budgets[k];
      && (b.spent > 1.2 * b.total ==> r.0.budgets[k].locked && r.1 == [BudgetLockedNow(k), ReviewOf(a, k)])
      && (b.spent <= 1.2 * b.total ==> r.0 == a)
      && (b.total < b.spent <= 1.2 * b.total ==> r.1 == [Notify, ReviewOf(a, k)])
      && (0.75 * b.total < b.spent <= b.total ==> r.1 == [Warn(75), ReviewOf(a, k)])
      && (b.spent <= 0.75 * b.total ==> r.1 == [])
    ensures forall j :: j in a.budgets && j != k ==> r.0.budgets[j] == a.budgets[j]
  {
    var b := a.budgets[k];
    RatioAbove(b.spent, b.total, 1.2);
    RatioAbove(b.spent, b.total, 1.0);
    RatioAbove(b.spent, b.total, 0.75);
    var ratio := ExceededRatio(b);
    if ratio > 1.2 then (LockBudget(a, k), [BudgetLockedNow(k), ReviewOf(a, k)])
    else if ratio > 1.0 then (a, [Notify, ReviewOf(a, k)])
    else if ratio > 0.75 then (a, [Warn(75), ReviewOf(a, k)])
    else (a, [])
  }

  /** Rebel: over the total it notifies, locks the budget, prints the
      review, and then locks the account if two or more budgets are now
      locked. Above 50% it warns at 50. */
  function RebelPolicy(a: Account<Category>, k: Category): (r: (Account<Category>, seq<Event<Category>>))
    requires k in a.budgets && a.budgets[k].total > 0.0
    ensures OnlyLocks(a, r.0)
    ensures var b := a.budgets[k];
      && (b.spent > b.total ==>
            && r.0.budgets[k].locked
            && |r.1| >= 3
            && r.1[..3] == [Notify, BudgetLockedNow(k), ReviewOf(a, k)]
            && (r.0.locked <==> a.locked || LockedCount(r.0.budgets) >= 2)
            && (|r.1| == 4 <==> LockedCount(r.0.budgets) >= 2)
            && (|r.1| == 4 ==> r.1[3] == AccountLockedNow))
      && (b.spent <= b.total ==> r.0 == a)
      && (0.5 * b.total < b.spent <= b.total ==> r.1 == [Warn(50), ReviewOf(a, k)])
      && (b.spent <= 0.5 * b.total ==> r.1 == [])
    ensures r.0.locked && !a.locked ==> LockedCount(r.0.budgets) >= 2
    ensures forall j :: j in a.budgets && j != k ==> r.0.budgets[j] == a.budgets[j]
  {
    var b := a.budgets[k];
    RatioAbove(b.spent, b.total, 1.0);
    RatioAbove(b.spent, b.total, 0.5);
    var ratio := ExceededRatio(b);
    if ratio > 1.0 then
      var locked := LockBudget(a, k);
      var events := [Notify, BudgetLockedNow(k), ReviewOf(a, k)];
      if LockedCount(locked.budgets) >= 2 then
        (locked.(locked := true), events + [AccountLockedNow])
      else (locked, events)
    else if ratio > 0.5 then (a, [Warn(50), ReviewOf(a, k)])
    else (a, [])
  }

  /** `_warn_and_lock_if_needed`, dispatched on the account's subclass. */
  function Escalate(kind: AccountKind, a: Account<Category>, k: Category): (r: (Account<Category>, seq<Event<Category>>))
    requires k in a.budgets && a.budgets[k].total > 0.0
    ensures OnlyLocks(a, r.0)
    ensures r.0.locked && !a.locked ==> kind == RebelAccount && LockedCount(r.0.budgets) >= 2
    ensures kind == AngelAccount ==> r.0 == a
  {
    match kind
    case AngelAccount => AngelPolicy(a, k)
    case TroublemakerAccount => TroublemakerPolicy(a, k)
    case RebelAccount => RebelPolicy(a, k)
  }

  /** `BankAccount.record_transaction`. The checks run in source order; a
      rejected call changes nothing. An accepted call appends the
      transaction, debits the balance, credits the category's budget and
      then runs the account's escalation policy, which may only set lock
      flags. `MissingBudget` stands for the AttributeError raised when the
      category has no budget. */
  function RecordTransaction(acct: BankAccount, tx: Transaction<Category>): (r: Recorded)
    requires PositiveTotals(acct.ledger.budgets)
    ensures r.account.kind == acct.kind
    ensures PositiveTotals(r.account.ledger.budgets)
    ensures var a := acct.ledger;
      && (a.locked ==> r.outcome == Rejected(AccountLocked))
      && (!a.locked && tx.amount > a.balance ==> r.outcome == Rejected(InsufficientBalance))
      && (!a.locked && tx.amount <= a.balance && tx.category !in a.budgets ==> r.outcome == Rejected(MissingBudget))
      && (var admissible := !a.locked && tx.amount <= a.balance && tx.category in a.budgets;
          && (admissible && a.budgets[tx.category].locked ==> r.outcome == Rejected(BudgetLocked))
          && (admissible && !a.budgets[tx.category].locked ==> r.outcome.Accepted?))
    ensures r.outcome.Rejected? ==> r.account == acct
    ensures var a := acct.ledger; var a' := r.account.ledger;
      r.outcome.Accepted? ==>
        && a'.history == a.history + [tx]
        && a'.balance == a.balance - tx.amount
        && a'.budgets.Keys == a.budgets.Keys
        && a'.budgets[tx.category].spent == a.budgets[tx.category].spent + tx.amount
        && (forall k :: k in a.budgets && k != tx.category ==> a'.budgets[k].spent == a.budgets[k].spent)
    ensures acct.ledger.locked ==> r.account.ledger.locked
    ensures forall k :: k in acct.ledger.budgets && acct.ledger.budgets[k].locked ==> r.account.ledger.budgets[k].locked
    ensures r.outcome.Accepted? ==>
              forall k :: k in acct.ledger.budgets && k != tx.category ==>
                r.account.ledger.budgets[k] == acct.ledger.budgets[k]
    ensures r.outcome.Accepted? ==>
              (r.account.ledger, r.outcome.events) == Escalate(acct.kind, Admit(acct.ledger, tx).value, tx.category)
  {
    match Admit(acct.ledger, tx)
    case Err(why) => Recorded(Rejected(why), acct)
    case Ok(admitted) =>
      var (after, events) := Escalate(acct.kind, admitted, tx.category);
      Recorded(Accepted(events), acct.(ledger := after))
  }

  /** The ledger invariant is kept by every call: money is conserved, every
      budget's spent is the sum of its category's history, the balance
      stays non-negative, and a locked account has two locked budgets. */
  lemma RecordTransactionConsistent(opening: real, acct: BankAccount, tx: Transaction<Category>)
    requires PositiveTotals(acct.ledger.budgets)
    requires Consistent(opening, acct.ledger) && acct.ledger.balance >= 0.0
    ensures Consistent(opening, RecordTransaction(acct, tx).account.ledger)
    ensures RecordTransaction(acct, tx).account.ledger.balance >= 0.0
  {
    match Admit(acct.ledger, tx)
    case Err(_) =>
    case Ok(admitted) =>
      AdmitConsistent(opening, acct.ledger, tx);
      var (after, _) := Escalate(acct.kind, admitted, tx.category);
      OnlyLocksConsistent(opening, admitted, after);
  }

  /** A Rebel account gets locked by a transaction exactly when the
      transaction takes its budget over the total while another budget is
      already locked. */
  lemma RebelAccountLock(acct: BankAccount, tx: Transaction<Category>)
    requires PositiveTotals(acct.ledger.budgets)
    requires acct.kind == RebelAccount && !acct.ledger.locked
    requires tx.category in acct.ledger.budgets
    ensures var a := acct.ledger; var b := a.budgets[tx.category];
      RecordTransaction(acct, tx).account.ledger.locked <==>
        && tx.amount <= a.balance && !b.locked
        && b.spent + tx.amount > b.total
        && LockedCount(a.budgets) >= 1
  {
    var a := acct.ledger;
    var b := a.budgets[tx.category];
    if tx.amount <= a.balance && !b.locked {
      var admitted := Admit(a, tx).value;
      assert LockedKeys(admitted.budgets) == LockedKeys(a.budgets);
      assert LockedCount(admitted.budgets) == LockedCount(a.budgets);
      RebelPolicyLocks(admitted, tx.category);
      assert RecordTransaction(acct, tx).account.ledger == RebelPolicy(admitted, tx.category).0;
    }
  }

  /** The Rebel policy locks an unlocked account exactly when the budget is
      over its total and some other budget is already locked. */
  lemma RebelPolicyLocks(a: Account<Category>, k: Category)
    requires k in a.budgets && a.budgets[k].total > 0.0
    requires !a.locked && !a.budgets[k].locked
    ensures RebelPolicy(a, k).0.locked <==> a.budgets[k].spent > a.budgets[k].total && LockedCount(a.budgets) >= 1
  {
    var b := a.budgets[k];
    var r := RebelPolicy(a, k);
    if b.spent > b.total {
      LockedCountAfterLock(a.budgets, k);
      assert r.0.budgets[k] == Lock(b);
      assert r.0.budgets == a.budgets[k := Lock(b)];
    }
  }

  /** Angel and Troublemaker accounts are never locked by recording. */
  lemma OnlyRebelLocksAccount(acct: BankAccount, tx: Transaction<Category>)
    requires PositiveTotals(acct.ledger.budgets)
    requires acct.kind != RebelAccount && !acct.ledger.locked
    ensures !RecordTransaction(acct, tx).account.ledger.locked
  {
  }

  /** Rejected calls are idempotent: retrying gives the same rejection. */
  lemma RejectionRepeats(acct: BankAccount, tx: Transaction<Category>)
    requires PositiveTotals(acct.ledger.budgets)
    requires RecordTransaction(acct, tx).outcome.Rejected?
    ensures RecordTransaction(RecordTransaction(acct, tx).account, tx) == RecordTransaction(acct, tx)
  {
  }

  /** `create_budget_manager` with the four amounts the user enters, in
      `BudgetCategory` order (each already accepted as positive). */
  function CreateBudgetManager(totals: seq<real>): (m: map<Category, Budget<Category>>)
    requires |totals| == |Categories|
    requires forall i :: 0 <= i < |totals| ==> totals[i] > 0.0
    ensures forall c :: c in m
    ensures PositiveTotals(m)
    ensures forall i :: 0 <= i < |Categories| ==> m[Categories[i]] == NewBudget(Categories[i], totals[i])
  {
    var m := BuildManager(Categories, totals);
    forall i | 0 <= i < |Categories|
      ensures m[Categories[i]] == NewBudget(Categories[i], totals[i])
    {
      BuildManagerLastWins(Categories, totals, i);
    }
    assert forall c :: c in m by {
      forall c ensures c in m { CategoriesComplete(c); }
    }
    m
  }

  /** `load_test_budget_manager`: every category budgeted at 100. */
  function TestBudgetManager(): (m: map<Category, Budget<Category>>)
    ensures forall c :: c in m && m[c] == NewBudget(c, 100.0)
  {
    var totals := [100.0, 100.0, 100.0, 100.0];
    var m := CreateBudgetManager(totals);
    assert forall c :: c in m && m[c] == NewBudget(c, 100.0) by {
      forall c ensures c in m && m[c] == NewBudget(c, 100.0) {
        var i := match c
          case GamesAndEntertainment => 0
          case ClothingAndAccessories => 1
          case EatingOut => 2
          case Miscellaneous => 3;
        assert Categories[i] == c && totals[i] == 100.0;
      }
    }
    m
  }

  /** `execute_budgets_menu` after the user's accepted choice. */
  function MenuCategory(choice: int): (r: Option<Category>)
    ensures r.Some? <==> 1 <= choice <= |Categories|
    ensures r.Some? ==> r.value == Categories[choice - 1]
  {
    if 1 <= choice <= |Categories| then Some(Categories[choice - 1]) else None
  }

  /** `create_bank_account`: an opening balance of at least zero, a
      freshly created budget manager, no history, unlocked. */
  function CreateBankAccount(userType: UserType, number: string, bank: string, balance: real,
                             budgets: map<Category, Budget<Category>>): (r: BankAccount)
    requires balance >= 0.0
    requires forall k :: k in budgets ==> budgets[k].key == k && budgets[k].spent == 0.0 && !budgets[k].locked
    ensures r.kind == KindFor(userType)
    ensures Fresh(r.ledger) && r.ledger.balance == balance && r.ledger.budgets == budgets
    ensures Consistent(balance, r.ledger)
  {
    var r := BankAccount(KindFor(userType), Account(number, bank, balance, false, [], budgets));
    FreshConsistent(r.ledger);
    r
  }

  /** `load_test_account`. */
  function TestAccount(): (r: BankAccount)
    ensures r.kind == TroublemakerAccount
    ensures r.ledger.number == "123123" && r.ledger.bank == "HSBC" && r.ledger.balance == 1000.0
    ensures Fresh(r.ledger) && PositiveTotals(r.ledger.budgets)
    ensures forall c :: c in r.ledger.budgets && r.ledger.budgets[c].total == 100.0
  {
    CreateBankAccount(Troublemaker, "123123", "HSBC", 1000.0, TestBudgetManager())
  }
}
