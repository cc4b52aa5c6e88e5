# learning-python, modelled in Dafny

This project models the decision logic of the exercises in the
`learning-python` repository and proves properties of it. The
exercises are written in Python.

- **The F.A.M. spending ledger.** This is the primary core. A bank account holds a balance,
  a transaction history and a budget for each category. A transaction is
  admitted after three ordered checks. After each admitted transaction, a
  per-profile escalation policy (Angel, Troublemaker, Rebel) may lock the
  budget or the whole account. Two versions exist, from assignment 1 and
  lab 3. Both share one ledger state (`Ledger`). Each keeps its own
  policies (`FamLedger`, `LabLedger`), because their ratio bands mean
  different spending levels.
- **The holiday supply chain** (assignment 2). It covers:
  - product-id shapes and per-product field rules (`SupplyItems`);
  - the holiday factories (`SupplyFactory`);
  - order validation and the spreadsheet row generator (`SupplyOrders`);
  - the store's restock-and-fulfil loop with its log (`SupplyStore`).
- **Cards.** There are two versions:
  - the lab 4 cards and their keyed `CardManager` (`IdCards`);
  - the lab 2 cards, `Wallet` and `CardIterator` (`Wallet`).
- **The word dictionary** (lab 6). It models the query and add rules, and
  the `--word` text format: its loader, its exporter and their round trip
  (`WordDictionary`).
- **The library catalogue** (lab 7). It models the call-number
  validators, the item constructors, `find_items` and `load_items`
  (`Library`).
- **The movie database proxy** (lab 8). It models user roles, the cache
  rules and the database it fronts (`MovieProxy`, `MovieDatabase`).
- **The crypto handler chain** (lab 5). It models the
  chain-of-responsibility run, the steps that can raise (file access, a DES
  key whose UTF-8 length differs from its character count, decryption), and
  the table that builds the chains (`CryptoChain`).
- **Rock, paper, scissors, python, spock** (lab 0). It models the defeat
  relation, games, tournaments and the menu session (`Rpsps`).
- **Vectors and asteroids** (lab 1). It models 3-D vector algebra and
  comparisons (`Vectors`), and bounded asteroid moves with unique ids
  (`Asteroids`).
- **The Pokedex** (assignment 3). It models request validation
  (`PokedexRequest`) and the records built from the web service's JSON
  (`Pokemon`).
- **Star Wars menus** (lab 10). It models enum menus numbered from 1
  (`EnumMenu`).

Shared pieces:

- `Wrappers` holds `Option` and `Result`.
- `PyDict` models a Python `dict`, which keeps insertion order; a key
  that is assigned again keeps its position.
- `Text` models ASCII digit strings, `str.split` and substring search.

User input, randomness and the clock become parameters of the operations.
Printing is left out. An exception the source raises becomes an `Err` or
`None` result, or, in the crypto chain, a `Raised` status naming the handler
whose step raised.

## Model

| member | source | states |
|---|---|---|
| `Ledger.UserTypeOf` | assignment-1-the-f-a-m-lizhiquan/user.py:8-14 | `UserType(n)` exists exactly for n in 1..3, and its value is n |
| `Ledger.UserTypeRoundTrip` | assignment-1-the-f-a-m-lizhiquan/user.py:8-14 | the enum value and the enum constructor are inverse to each other |
| `Ledger.NewBudget` | assignment-1-the-f-a-m-lizhiquan/budget.py:29-38 | a new budget has the given category and total, nothing spent, and is unlocked |
| `Ledger.Lock` | assignment-1-the-f-a-m-lizhiquan/budget.py:73-78 | locking sets the flag and leaves category, total and spent as they were |
| `Ledger.LockIdempotent` | assignment-1-the-f-a-m-lizhiquan/budget.py:65-78 | there is no unlock: locking twice is locking once, and a locked budget stays as it is |
| `Ledger.AddBudget` | assignment-1-the-f-a-m-lizhiquan/budget.py:93-99 | the budget is stored under its own category, replacing an earlier one; every other entry is kept |
| `Ledger.BuildManager` | assignment-1-the-f-a-m-lizhiquan/budget.py:151-164 | adding one budget per key gives exactly those keys, each budget under its own key, unspent and unlocked |
| `Ledger.BuildManagerLastWins` | assignment-1-the-f-a-m-lizhiquan/budget.py:93-99 | a key added more than once keeps the total of its last addition |
| `Ledger.GetBudget` | assignment-1-the-f-a-m-lizhiquan/budget.py:101-107 | the lookup gives nothing exactly when the category is absent, and otherwise the stored budget |
| `Ledger.LockedCount` | assignment-1-the-f-a-m-lizhiquan/budget.py:117-126 | the count of locked budgets is at most the number of budgets, and zero exactly when none is locked |
| `Ledger.LockedCountAfterLock` | assignment-1-the-f-a-m-lizhiquan/bank_account.py:122-129 | locking one unlocked budget raises the locked count by exactly one |
| `Ledger.ByCategory` | assignment-1-the-f-a-m-lizhiquan/bank_account.py:131-140 | a transaction is listed exactly when it is in the history with that category |
| `Ledger.ByCategoryAppend` | assignment-1-the-f-a-m-lizhiquan/bank_account.py:131-140 | the listing keeps recording order: a new transaction shows up at the end of its own category's list and nowhere else |
| `Ledger.RatioAbove` | assignment-1-the-f-a-m-lizhiquan/budget.py:56-64 | with a positive total, the ratio exceeds c exactly when spent exceeds c times the total |
| `Ledger.Admit` | assignment-1-the-f-a-m-lizhiquan/bank_account.py:45-72 | the three rejections come in source order: account locked, then amount above balance, then budget locked. Each fires exactly under its condition. Spending the whole balance is allowed. On success the transaction is appended, the balance is debited, the category's spent is credited, and every other budget is unchanged |
| `Ledger.AdmitConsistent` | assignment-1-the-f-a-m-lizhiquan/bank_account.py:45-72 | admitting keeps the ledger invariant: the opening balance equals the balance plus everything recorded, and each budget's spent is the sum of its category's history. The balance stays non-negative |
| `Ledger.OnlyLocksConsistent` | assignment-1-the-f-a-m-lizhiquan/bank_account.py:234-261 | a policy step that only sets lock flags, and locks the account only with two locked budgets, keeps the ledger invariant |
| `Ledger.FreshConsistent` | assignment-1-the-f-a-m-lizhiquan/bank_account.py:29-43 | a new account with no history and unspent budgets satisfies the ledger invariant for its opening balance |
| `FamLedger.CategoriesComplete` | assignment-1-the-f-a-m-lizhiquan/budget.py:10-17 | `list(BudgetCategory)` lists each of the four categories exactly once |
| `FamLedger.ExceededRatio` | assignment-1-the-f-a-m-lizhiquan/budget.py:56-64 | the ratio times the total is the amount spent |
| `FamLedger.KindForValue` | assignment-1-the-f-a-m-lizhiquan/bank_account.py:264-278 | user types 1, 2 and 3 map to Angel, Troublemaker and Rebel accounts; any other key raises |
| `FamLedger.KindForBijective` | assignment-1-the-f-a-m-lizhiquan/bank_account.py:264-278 | the user-type map is one-to-one and reaches every account kind |
| `Ledger.LockBudget` | assignment-1-the-f-a-m-lizhiquan/bank_account.py:122-129 | locks that budget only: every other budget and the account flag stay (lab 3 has no such method: it sets `budget.locked = True` inline at bank_account.py:84 and :101, with the same effect, since its locked count is recomputed from the flags) |
| `FamLedger.AngelPolicy` | assignment-1-the-f-a-m-lizhiquan/bank_account.py:170-189 | Angel never changes the account. Above the total it notifies; above 90% it warns at 90; otherwise nothing. Each notice comes with the review listing |
| `FamLedger.TroublemakerPolicy` | assignment-1-the-f-a-m-lizhiquan/bank_account.py:199-223 | Troublemaker locks the budget above 120% and changes nothing otherwise. Above 100% it notifies, above 75% it warns at 75. It never locks the account, and other budgets stay |
| `FamLedger.RebelPolicy` | assignment-1-the-f-a-m-lizhiquan/bank_account.py:234-261 | Rebel, above the total: notifies, locks the budget and lists the review. It locks the account exactly when two or more budgets are then locked. Above 50% it warns at 50 and changes nothing |
| `FamLedger.Escalate` | assignment-1-the-f-a-m-lizhiquan/bank_account.py:75-85 | every policy only sets lock flags. Only Rebel may lock the account, and only with two locked budgets. Angel changes nothing |
| `FamLedger.RecordTransaction` | assignment-1-the-f-a-m-lizhiquan/bank_account.py:45-74 | the three ordered rejections, and a rejected call changes nothing. An accepted call appends, debits and credits that category, leaves every other budget exactly as it was, and its ledger and events are those of the account kind's policy applied to the admitted ledger. Locks are never undone |
| `FamLedger.RecordTransactionConsistent` | assignment-1-the-f-a-m-lizhiquan/bank_account.py:45-74 | every call keeps the ledger invariant (money conserved, spent per category, two locked budgets behind a locked account), and the balance stays non-negative |
| `FamLedger.RebelAccountLock` | assignment-1-the-f-a-m-lizhiquan/bank_account.py:234-261 | a Rebel account is locked by a call exactly when the transaction is admitted, takes its budget over the total, and another budget is already locked |
| `FamLedger.RebelPolicyLocks` | assignment-1-the-f-a-m-lizhiquan/bank_account.py:246-258 | the Rebel policy locks an unlocked account exactly when the budget is over its total and another budget is already locked |
| `FamLedger.OnlyRebelLocksAccount` | assignment-1-the-f-a-m-lizhiquan/bank_account.py:164-223 | Angel and Troublemaker accounts are never locked by recording |
| `FamLedger.RejectionRepeats` | assignment-1-the-f-a-m-lizhiquan/bank_account.py:54-66 | retrying a rejected transaction gives the same rejection and the same account |
| `FamLedger.CreateBudgetManager` | assignment-1-the-f-a-m-lizhiquan/budget.py:151-164 | every category is budgeted with the amount entered for it, in enum order; every total is positive |
| `FamLedger.TestBudgetManager` | assignment-1-the-f-a-m-lizhiquan/budget.py:184-194 | every category has a fresh budget of 100 |
| `FamLedger.MenuCategory` | assignment-1-the-f-a-m-lizhiquan/budget.py:165-183 | a choice in 1..4 is accepted and selects the category at that position |
| `FamLedger.CreateBankAccount` | assignment-1-the-f-a-m-lizhiquan/bank_account.py:289-310 | the account kind follows the user type. The new account is fresh, holds the given balance and budgets, and satisfies the ledger invariant |
| `FamLedger.TestAccount` | assignment-1-the-f-a-m-lizhiquan/bank_account.py:280-288 | a Troublemaker account "123123" at "HSBC" with 1000, fresh, with every budget at 100 |
| `Prompts.BudgetAmount` | assignment-1-the-f-a-m-lizhiquan/budget.py:135-150 | the amount taken is the first answer above zero; there is none when no answer is above zero |
| `Prompts.OpeningBalance` | assignment-1-the-f-a-m-lizhiquan/bank_account.py:289-304 | the balance taken is the first answer of at least zero; there is none when every answer is negative |
| `Prompts.MenuChoice` | assignment-1-the-f-a-m-lizhiquan/budget.py:165-183 | the choice taken is the first answer in 1..n, returned as the position it selects |
| `LabLedger.NamesMatchCategories` | lab-3-getting-to-know-the-f-a-m-lizhiquan/budget.py:39-44 | lab 3's four budget names are distinct, and in order are the category values of assignment 1 |
| `LabLedger.Overrun` | lab-3-getting-to-know-the-f-a-m-lizhiquan/bank_account.py:69 | lab 3's ratio is the overrun: ratio plus one, times the total, is the amount spent |
| `LabLedger.OverrunAbove` | lab-3-getting-to-know-the-f-a-m-lizhiquan/bank_account.py:69-70 | the overrun exceeds c exactly when spent exceeds (1 + c) times the total |
| `LabLedger.AngelPolicy` | lab-3-getting-to-know-the-f-a-m-lizhiquan/bank_account.py:66-75 | Angel does nothing below the total and never locks. Beyond 1.9 times the total it warns at 90; otherwise it reports the budget exceeded |
| `LabLedger.TroublemakerPolicy` | lab-3-getting-to-know-the-f-a-m-lizhiquan/bank_account.py:79-92 | Troublemaker locks the budget beyond 2.2 times the total and warns at 75 beyond 1.75 times. Otherwise, once the budget is used up, it reports it exceeded. It never locks the account |
| `LabLedger.RebelPolicy` | lab-3-getting-to-know-the-f-a-m-lizhiquan/bank_account.py:96-112 | Rebel, beyond twice the total: locks the budget, and the account exactly when two budgets are locked. It warns at 50 beyond 1.5 times; otherwise, once used up, it reports exceeded |
| `LabLedger.Escalate` | lab-3-getting-to-know-the-f-a-m-lizhiquan/bank_account.py:65-112 | every lab 3 policy only sets lock flags, and only Rebel locks the account. Nothing happens below the total |
| `LabLedger.RecordTransaction` | lab-3-getting-to-know-the-f-a-m-lizhiquan/bank_account.py:19-40 | the same three ordered rejections, with no change on rejection. An accepted call appends, debits and credits that category, leaves every other budget exactly as it was, and its ledger and events are those of the lab 3 policy for the account kind applied to the admitted ledger |
| `LabLedger.QuietBelowTotal` | lab-3-getting-to-know-the-f-a-m-lizhiquan/bank_account.py:66-112 | while a budget is not used up, an accepted call is a plain debit with no events |
| `LabLedger.RecordTransactionConsistent` | lab-3-getting-to-know-the-f-a-m-lizhiquan/bank_account.py:19-40 | every call keeps the ledger invariant and a non-negative balance |
| `LabLedger.TroublemakerBandsDiffer` | lab-3-getting-to-know-the-f-a-m-lizhiquan/bank_account.py:82-86 | a Troublemaker budget spent between 1.2 and 1.75 times its total is locked by assignment 1 and only reported by lab 3 |
| `LabLedger.KindForValue` | lab-3-getting-to-know-the-f-a-m-lizhiquan/bank_account.py:132-151 | 1 selects Angel and 2 Troublemaker; every other value falls through to Rebel |
| `LabLedger.DispatchAgrees` | lab-3-getting-to-know-the-f-a-m-lizhiquan/bank_account.py:132-151 | the two versions pick the same account kind for the three user types. Assignment 1 raises where lab 3 falls through to Rebel |
| `LabLedger.CreateBudgets` | lab-3-getting-to-know-the-f-a-m-lizhiquan/budget.py:57-64 | exactly the four names are budgeted, each with its entered positive amount |
| `LabLedger.TestBudgets` | lab-3-getting-to-know-the-f-a-m-lizhiquan/budget.py:78-83 | exactly the four names, each with a fresh budget of 100 |
| `LabLedger.MenuName` | lab-3-getting-to-know-the-f-a-m-lizhiquan/budget.py:65-77 | a choice in 1..4 is accepted and selects the name at that position |
| `LabLedger.TestAccount` | lab-3-getting-to-know-the-f-a-m-lizhiquan/bank_account.py:117-121 | a fresh Troublemaker account "123123" at "HSBC" with 1000 that satisfies the ledger invariant |
| `SupplyItems.ItemTypeOf` | assignment-2-supply-chain-ph/items.py:8-14 | `ItemType(value)` succeeds exactly for the three type names, and gives the type whose name is the value |
| `SupplyItems.IdShapeUnique` | assignment-2-supply-chain-ph/items.py:92-93 | a product id of the shape letter, four digits, letter names exactly one holiday and one item type |
| `SupplyItems.ParseEnum` | assignment-2-supply-chain-ph/items.py:225-228 | an enum constructor gives the member whose value is the text, and raises exactly when no member has that value |
| `SupplyItems.ParseEnumRoundTrip` | assignment-2-supply-chain-ph/items.py:180-206 | parsing a member's value gives back that member, when no two members share a value |
| `SupplyItems.Arg` | assignment-2-supply-chain-ph/items.py:24 | a keyword argument is read when it is present; a missing one is a TypeError naming it |
| `SupplyItems.Str` | assignment-2-supply-chain-ph/items.py:31-42 | the `isinstance(value, str)` check passes exactly for text, and gives that text |
| `SupplyItems.Int` | assignment-2-supply-chain-ph/items.py:71 | `int(value)` succeeds exactly for a whole number or a string of ASCII digits |
| `SupplyItems.Flag` | assignment-2-supply-chain-ph/items.py:48-53 | "Y" reads as true and "N" as false; every other value raises |
| `SupplyItems.NewBase` | assignment-2-supply-chain-ph/items.py:24-45 | an item is made exactly when product id, name and description are all non-empty strings, and it holds those three values |
| `SupplyItems.NewToy` | assignment-2-supply-chain-ph/items.py:61-74 | a toy's base is checked first. A missing keyword raises a TypeError. On success the age is at least 0 and both fields read back from the arguments |
| `SupplyItems.NewStuffed` | assignment-2-supply-chain-ph/items.py:213-228 | a stuffed animal's base is checked first. On success stuffing, size and fabric are the members named by the arguments |
| `SupplyItems.NewCandy` | assignment-2-supply-chain-ph/items.py:323-334 | a candy's base is checked first. On success both flags read back from the arguments |
| `SupplyItems.NewSantaWorkshop` | assignment-2-supply-chain-ph/items.py:77-102 | a built Santa's workshop is a valid Christmas toy: id C####T, no batteries, dimensions "w,h", at least one room. Every field comes from the arguments |
| `SupplyItems.NewRCSpider` | assignment-2-supply-chain-ph/items.py:113-145 | a built RC spider is a valid Halloween toy: id H####T, batteries, positive speed and jump height |
| `SupplyItems.NewRobotBunny` | assignment-2-supply-chain-ph/items.py:156-179 | a built robot bunny is a valid Easter toy: id E####T, batteries, a positive number of sounds |
| `SupplyItems.NewDancingSkeleton` | assignment-2-supply-chain-ph/items.py:231-255 | a built dancing skeleton is a valid Halloween stuffed animal: id H####S, polyester fibrefill, acrylic, glowing |
| `SupplyItems.NewReindeer` | assignment-2-supply-chain-ph/items.py:257-279 | a built reindeer is a valid Christmas stuffed animal: id C####S, wool, cotton, glowing |
| `SupplyItems.NewEasterBunny` | assignment-2-supply-chain-ph/items.py:292-316 | a built Easter bunny is a valid Easter stuffed animal: id E####S, polyester fibrefill, linen |
| `SupplyItems.NewPumpkinCaramelToffee` | assignment-2-supply-chain-ph/items.py:342-363 | a built toffee is a valid Halloween candy: id H####C, with nuts and lactose |
| `SupplyItems.NewCandyCanes` | assignment-2-supply-chain-ph/items.py:374-395 | built candy canes are a valid Christmas candy: id C####C, no nuts, no lactose |
| `SupplyItems.NewCremeEggs` | assignment-2-supply-chain-ph/items.py:398-420 | built creme eggs are a valid Easter candy: id E####C, with nuts and lactose, and a positive pack size |
| `SupplyFactory.Create` | assignment-2-supply-chain-ph/item_factory.py:11-133 | whatever a factory builds is valid, is described by the arguments, and has the factory's holiday and the requested category in its id |
| `SupplyFactory.FactoryFor` | assignment-2-supply-chain-ph/order_processor.py:54-58 | exactly the three holiday names have a factory, each its own; any other value is the KeyError |
| `SupplyFactory.FactoryProducts` | assignment-2-supply-chain-ph/item_factory.py:45-133 | each holiday factory makes its own toy, stuffed animal and candy |
| `SupplyFactory.IntCellReads` | assignment-2-supply-chain-ph/items.py:71 | a cell that reads as the number n is parsed as n |
| `SupplyFactory.FlagCellReads` | assignment-2-supply-chain-ph/items.py:48-53 | the value written for a flag parses back to that flag |
| `SupplyFactory.BaseComplete` | assignment-2-supply-chain-ph/items.py:24-45 | the arguments of any valid item pass the base checks, which give its three base fields |
| `SupplyFactory.ToyComplete` | assignment-2-supply-chain-ph/items.py:61-74 | the arguments of any valid toy pass the toy checks, which give its flag and age |
| `SupplyFactory.StuffedComplete` | assignment-2-supply-chain-ph/items.py:213-228 | the arguments of any valid stuffed animal pass the stuffed-animal checks, which give its stuffing, size and fabric |
| `SupplyFactory.CandyComplete` | assignment-2-supply-chain-ph/items.py:323-334 | the arguments of any valid candy pass the candy checks, which give its flags |
| `SupplyFactory.ToyProductComplete` | assignment-2-supply-chain-ph/items.py:77-179 | a valid toy's arguments make its factory return exactly that toy |
| `SupplyFactory.StuffedProductComplete` | assignment-2-supply-chain-ph/items.py:231-316 | a valid stuffed animal's arguments make its factory return exactly that animal |
| `SupplyFactory.CandyProductComplete` | assignment-2-supply-chain-ph/items.py:342-420 | a valid candy's arguments make its factory return exactly that candy |
| `SupplyFactory.CreateComplete` | assignment-2-supply-chain-ph/item_factory.py:45-133 | the converse of `Create`: arguments describing any valid item make the factory return exactly that item, so the factories accept precisely the valid items |
| `SupplyFactory.CreatedIdNamesFactory` | assignment-2-supply-chain-ph/items.py:92-93 | a built item's id names the factory's holiday and the requested category, and no other pair |
| `SupplyFactory.BaseCheckedFirst` | assignment-2-supply-chain-ph/items.py:24-34 | with every keyword present, an empty product id is the error whichever factory runs |
| `SupplyOrders.NewOrder` | assignment-2-supply-chain-ph/order_processor.py:19-40 | an order is made exactly when the columns are present, the order number parses, the quantity parses above zero and the item type is known. Blank number and blank quantity are rejected in that order. The details are the row without number, item and quantity |
| `SupplyOrders.OrderOf` | assignment-2-supply-chain-ph/order_processor.py:68-85 | a row yields an order exactly when its holiday has a factory and the rest of the row makes an order. The holiday column is dropped |
| `SupplyOrders.Yielded` | assignment-2-supply-chain-ph/order_processor.py:61-85 | every yielded order comes from some row, and there are at most as many orders as rows |
| `SupplyOrders.YieldedComplete` | assignment-2-supply-chain-ph/order_processor.py:61-85 | every row that makes an order has its order among the yielded ones |
| `SupplyOrders.NextOrders` | assignment-2-supply-chain-ph/order_processor.py:61-85 | draining the generator gives the yielded orders, each with a positive quantity |
| `SupplyStore.CreateItem` | assignment-2-supply-chain-ph/store.py:82-92 | the order's factory builds a valid item of the order's category and holiday, described by the order's details |
| `SupplyStore.StockInventory` | assignment-2-supply-chain-ph/store.py:60-80 | a sample is made only when there is none yet. n new copies are appended after the old stock, and the restock is logged. The new count is returned. A failing creation raises before anything is stored. Other products are untouched |
| `SupplyStore.BatchesLeast` | assignment-2-supply-chain-ph/store.py:42-43 | the restock loop runs the fewest batches of 100 that cover the order |
| `SupplyStore.RestockStep` | assignment-2-supply-chain-ph/store.py:42-43 | one more batch adds exactly 100 to the stock and keeps the restock invariant |
| `SupplyStore.RestockFailsFirst` | assignment-2-supply-chain-ph/store.py:38-48 | a batch can fail only before any batch has succeeded, and then with the order's own creation error |
| `SupplyStore.RestockFor` | assignment-2-supply-chain-ph/store.py:38-43 | the restock loop either fails on the first batch with the store untouched, or stops after exactly the fewest batches that cover the order |
| `SupplyStore.RestockBatchOf` | assignment-2-supply-chain-ph/store.py:43 | one pass of the loop either fails on the first batch or adds 100 and keeps the invariant |
| `SupplyStore.FinishOrder` | assignment-2-supply-chain-ph/store.py:50-58 | after the last batch, serving the order takes it from the end of the list. Fewer than 100 remain when restocking happened, and every remaining item is old stock or a new copy |
| `SupplyStore.ProcessOrder` | assignment-2-supply-chain-ph/store.py:32-58 | enough stock: the order's quantity is cut from the end and the order is logged, with no factory call. Otherwise the store restocks in batches of 100 and then serves the order. Data that cannot build its product leaves the store untouched except for the corrupted-order log line. Other products are never touched |
| `SupplyStore.ProcessAll` | assignment-2-supply-chain-ph/user_menu.py:58-59 | processing a sheet's orders only appends to the history, at least one line per order |
| `SupplyStore.QuantityStatus` | assignment-2-supply-chain-ph/store.py:105-117 | 10 or more is in stock, 3 to 9 is low, 1 or 2 is very low, and none is out of stock |
| `SupplyStore.StatusMonotone` | assignment-2-supply-chain-ph/store.py:105-117 | more stock never reads as a worse status |
| `IdCards.Expired` | lab-4-one-parent-is-better-than-2-lizhiquan/task2_cards.py:26-34 | a card is expired from its expiry day on, the expiry day included |
| `IdCards.ExpiryOrder` | lab-4-one-parent-is-better-than-2-lizhiquan/task2_cards.py:26-34 | expired exactly when today is the expiry day or later, since dates are totally ordered |
| `IdCards.GetDetails` | lab-4-one-parent-is-better-than-2-lizhiquan/task2_cards.py:70-79 | the details hold exactly the truthy contact fields under their labels: the name when non-empty, the birth date when given, and each other field when given and non-empty |
| `IdCards.PutIf` | lab-4-one-parent-is-better-than-2-lizhiquan/task2_cards.py:76-78 | one loop turn stores the field only when it is truthy, and leaves every other label alone |
| `IdCards.IdFormatConcat` | lab-4-one-parent-is-better-than-2-lizhiquan/task2_cards.py:283-284 | an id is the given letter followed by digits exactly when the rest is a non-empty ASCII digit string |
| `IdCards.ValidateCard` | lab-4-one-parent-is-better-than-2-lizhiquan/task2_cards.py:171-343 | an ID card is valid iff unexpired with id A+digits. A transit card is valid iff its balance is at least 0 and its id is T+digits. A gift card is valid iff its balance is at least 0, it is unexpired, and its id is G+digits |
| `IdCards.LeadsWith` | lab-4-one-parent-is-better-than-2-lizhiquan/task2_cards.py:283-284 | the Python test with slices is the same as the id format, the empty id included |
| `IdCards.ValidKindsDisjoint` | lab-4-one-parent-is-better-than-2-lizhiquan/task2_cards.py:171-343 | two valid cards with the same id are of the same kind |
| `IdCards.TransitIgnoresDate` | lab-4-one-parent-is-better-than-2-lizhiquan/task2_cards.py:279-284 | a transit card's validity does not depend on the date |
| `IdCards.NewTransitCard` | lab-4-one-parent-is-better-than-2-lizhiquan/task2_cards.py:264-277 | only the exact answer "y" gives a monthly pass, and the contact holds only the name and email |
| `IdCards.GetFields` | lab-4-one-parent-is-better-than-2-lizhiquan/task2_cards.py:123-354 | every card kind asks for the parent's fields first; both balance kinds ask for the balance third |
| `IdCards.TransitFields` | lab-4-one-parent-is-better-than-2-lizhiquan/task2_cards.py:290-300 | a transit card asks for issuer, id, balance, name, email and monthly pass, in this order |
| `IdCards.AddCard` | lab-4-one-parent-is-better-than-2-lizhiquan/lab4_driver.py:26-37 | a card is added, and true answered, exactly when its id is new. It is then stored under its id at the end of the order. Otherwise the manager is unchanged. Other ids keep their cards |
| `IdCards.RemoveCard` | lab-4-one-parent-is-better-than-2-lizhiquan/lab4_driver.py:39-49 | true is answered exactly when the id was present. The id is absent afterwards, and other ids keep their cards |
| `IdCards.FindCard` | lab-4-one-parent-is-better-than-2-lizhiquan/lab4_driver.py:51-59 | a card is found exactly when its id is stored, and the card found is the one stored under that id, so it has that id |
| `IdCards.FindAfterAdd` | lab-4-one-parent-is-better-than-2-lizhiquan/lab4_driver.py:26-59 | a card added under a new id is found again under it, and every other id finds what it found before |
| `IdCards.FindAfterRemove` | lab-4-one-parent-is-better-than-2-lizhiquan/lab4_driver.py:39-59 | a removed id is no longer found, and every other id finds what it found before |
| `IdCards.AddThenRemove` | lab-4-one-parent-is-better-than-2-lizhiquan/lab4_driver.py:26-49 | adding a card with a new id and removing it again gives back the same manager, order included |
| `IdCards.ValidateCards` | lab-4-one-parent-is-better-than-2-lizhiquan/lab4_driver.py:61-71 | one (id, valid) pair per stored card, in insertion order |
| `Wallet.IdNumberConcat` | lab-2-writing-solid-code-lizhiquan/cards.py:207-215 | an ID card number is "ARD" and then exactly six ASCII digits |
| `Wallet.NumberFormatsDisjoint` | lab-2-writing-solid-code-lizhiquan/cards.py:207-257 | no number is valid for both an ID card and a credit card |
| `Wallet.AccessIdCard` | lab-2-writing-solid-code-lizhiquan/cards.py:57-69 | an ID card is accessible exactly before its expiry and with a well-formed number |
| `Wallet.AccessCreditCard` | lab-2-writing-solid-code-lizhiquan/cards.py:93-119 | a charge succeeds exactly before expiry, with a well-formed number and with the charge at most the balance. It then lowers the balance by the charge; otherwise the card is unchanged |
| `Wallet.ChargeAll` | lab-2-writing-solid-code-lizhiquan/cards.py:93-119 | successive charges keep the card's number and never raise the balance |
| `Wallet.BalanceNeverNegative` | lab-2-writing-solid-code-lizhiquan/cards.py:176-198 | a card created with a balance of at least 0 never goes below 0, whatever charges follow |
| `Wallet.AddCard` | lab-2-writing-solid-code-lizhiquan/lab2_driver.py:19-24 | the card is stored under its number, replacing any card with that number; others stay; the count grows only for a new number |
| `Wallet.RemoveCard` | lab-2-writing-solid-code-lizhiquan/lab2_driver.py:26-33 | gives the stored card or None, and the number is absent afterwards; others stay |
| `Wallet.AddThenRemoveReturnsCard` | lab-2-writing-solid-code-lizhiquan/lab2_driver.py:19-33 | removing what was just added gives that card back. For a new number, the wallet is as before |
| `Wallet.SearchCard` | lab-2-writing-solid-code-lizhiquan/lab2_driver.py:35-41 | a card is found exactly when its number is stored, and it is the stored card |
| `Wallet.AccessCard` | lab-2-writing-solid-code-lizhiquan/lab2_driver.py:183-197 | "Card not found!" exactly when the number is not stored, and then nothing changes. An ID card is accessed as `AccessIdCard` says, with the wallet unchanged. A credit card is accessed as `AccessCreditCard` says, and the charged card stays stored under its number, because the card found is the wallet's own object. Other cards and the key order are untouched |
| `Wallet.AccessTwiceChargesBoth` | lab-2-writing-solid-code-lizhiquan/lab2_driver.py:183-197 | a second access of a stored credit card sees the first charge: the stored card ends as charged by both in turn |
| `Wallet.Iter` | lab-2-writing-solid-code-lizhiquan/lab2_driver.py:43-50 | the iterator starts at the first card and walks the wallet's cards in order |
| `Wallet.Restart` | lab-2-writing-solid-code-lizhiquan/lab2_driver.py:83-90 | iterating the iterator again starts over from the first card |
| `Wallet.Next` | lab-2-writing-solid-code-lizhiquan/lab2_driver.py:67-81 | StopIteration exactly when the cards are used up. Otherwise the next card comes with whether it is unexpired now, and the position moves on by one |
| `Wallet.Drain` | lab-2-writing-solid-code-lizhiquan/lab2_driver.py:67-81 | a loop over the iterator sees every remaining card exactly once, in order, each with its validity, and then stops |
| `WordDictionary.Query` | lab-6-linguistic-error-handling-lizhiquan/custom_dictionary.py:24-37 | a known word gives its stored definitions and joins the queried set. An unknown word raises WordNotFoundError and the queried set stays as it was |
| `WordDictionary.AddWord` | lab-6-linguistic-error-handling-lizhiquan/custom_dictionary.py:49-68 | the four rejections in source order: not a list, empty word, word already present, empty list. The word is added, at the end, exactly when none applies. An existing word is never overwritten |
| `WordDictionary.Export` | lab-6-linguistic-error-handling-lizhiquan/custom_dictionary.py:103-116 | the text is empty exactly when no word is exported; the content is stated by `LoadExport` |
| `WordDictionary.ExportDictionary` | lab-6-linguistic-error-handling-lizhiquan/custom_dictionary.py:70-78 | an empty dictionary exports as empty text and any other as non-empty text; the content is stated by `LoadExportDictionary` |
| `WordDictionary.ExportQueried` | lab-6-linguistic-error-handling-lizhiquan/custom_dictionary.py:39-47 | nothing queried exports as empty text; the content is stated by `QueriedExportCovers` |
| `WordDictionary.ParseBlock` | lab-6-linguistic-error-handling-lizhiquan/custom_dictionary.py:99-101 | a parsed block's word is never empty, since blank lines are filtered out |
| `WordDictionary.Insert` | lab-6-linguistic-error-handling-lizhiquan/custom_dictionary.py:101 | the comprehension over blocks never drops a word already in the result |
| `WordDictionary.Load` | lab-6-linguistic-error-handling-lizhiquan/custom_dictionary.py:87-101 | loading gives a dict without repeated words |
| `WordDictionary.LastBlockWins` | lab-6-linguistic-error-handling-lizhiquan/custom_dictionary.py:101 | a word given by two blocks gets the definitions of the later block |
| `WordDictionary.ParseBlockExported` | lab-6-linguistic-error-handling-lizhiquan/custom_dictionary.py:99-116 | one exported entry of writable text parses back to that word and those definitions |
| `WordDictionary.BlockShape` | lab-6-linguistic-error-handling-lizhiquan/custom_dictionary.py:113-116 | an exported entry contains no separator and ends with a newline |
| `WordDictionary.SplitBlocks` | lab-6-linguistic-error-handling-lizhiquan/custom_dictionary.py:98 | splitting the text after a leading separator on the separator gives one block per exported word |
| `WordDictionary.ExportSplits` | lab-6-linguistic-error-handling-lizhiquan/custom_dictionary.py:98-116 | splitting exported text on the separator gives an empty first piece and then one block per word |
| `WordDictionary.BlocksParse` | lab-6-linguistic-error-handling-lizhiquan/custom_dictionary.py:99-100 | each exported block parses to the entry of the word at its position |
| `WordDictionary.InsertFresh` | lab-6-linguistic-error-handling-lizhiquan/custom_dictionary.py:101 | a block with a new word appends its entry |
| `WordDictionary.InsertParsed` | lab-6-linguistic-error-handling-lizhiquan/custom_dictionary.py:101 | blocks whose words are new and distinct append their entries in order |
| `WordDictionary.LoadExport` | lab-6-linguistic-error-handling-lizhiquan/custom_dictionary.py:87-116 | loading exported text gives back the exported words with their definitions, in export order, when every word and definition is writable |
| `WordDictionary.LoadExportDictionary` | lab-6-linguistic-error-handling-lizhiquan/custom_dictionary.py:70-116 | exporting the whole dictionary and loading the file gives back the same dictionary, order included |
| `WordDictionary.QueriedExportCovers` | lab-6-linguistic-error-handling-lizhiquan/custom_dictionary.py:39-47 | loading the export of the queried words gives exactly the queried words |
| `WordDictionary.SelectAll` | lab-6-linguistic-error-handling-lizhiquan/custom_dictionary.py:77-78 | exporting every key in key order selects the whole dictionary |
| `Library.CallNumberConcat` | lab-7-all-work-and-no-play-lizhiquan/items.py:71-73 | a call number is the kind's letters followed by three dot-and-three-digit groups, and nothing else |
| `Library.CallNumberHead` | lab-7-all-work-and-no-play-lizhiquan/items.py:71-126 | a manga's number starts "MG"; a game's "G." and a movie's "M." |
| `Library.CallNumbersDisjoint` | lab-7-all-work-and-no-play-lizhiquan/items.py:71-126 | no string is a valid call number of two kinds |
| `Library.FormattedIsValid` | lab-7-all-work-and-no-play-lizhiquan/items.py:71-126 | every formatted number passes its own kind's check and no other kind's |
| `Library.NewBase` | lab-7-all-work-and-no-play-lizhiquan/items.py:20-31 | a negative number of copies raises. Zero is accepted, an omitted count means one copy, and the fields are stored as given |
| `Library.NewManga` | lab-7-all-work-and-no-play-lizhiquan/items.py:62-76 | a manga is made exactly when the call number has the manga format and the copies are not negative. A bad number is reported before the copy count is looked at |
| `Library.NewGame` | lab-7-all-work-and-no-play-lizhiquan/items.py:88-103 | a game is made exactly when the call number has the game format and the copies are not negative. The platform defaults to "PC" and the player count to 1 |
| `Library.NewMovie` | lab-7-all-work-and-no-play-lizhiquan/items.py:115-129 | a movie is made exactly when the call number has the movie format and the copies are not negative |
| `Library.ConstructorsWellFormed` | lab-7-all-work-and-no-play-lizhiquan/items.py:62-129 | every item a constructor builds is well formed: its call number has its own kind's format, and its copies are not negative |
| `Library.NewCatalogue` | lab-7-all-work-and-no-play-lizhiquan/library.py:16-24 | no list gives an empty catalogue, and a given list is taken as it is |
| `Library.FindItems` | lab-7-all-work-and-no-play-lizhiquan/library.py:66-76 | an item is found exactly when it is in the catalogue and its title or call number equals the query |
| `Library.FindItemsAppend` | lab-7-all-work-and-no-play-lizhiquan/library.py:66-76 | the search keeps catalogue order: the first part's matches come before the second's |
| `Library.FindItemsCounts` | lab-7-all-work-and-no-play-lizhiquan/library.py:66-76 | a matching item is found as many times as the catalogue holds it, and any other item never |
| `Library.LoadItems` | lab-7-all-work-and-no-play-lizhiquan/library.py:78-98 | the loaded items are appended in production order after the existing ones, which stay |
| `Library.FindAfterLoad` | lab-7-all-work-and-no-play-lizhiquan/library.py:66-98 | after loading, a search finds what it found before, followed by the new matches |
| `MovieDatabase.NextKey` | lab-8-movie-via-proxy-lizhiquan/movie_database.py:101-103 | a new row's key is at least 1 and above every key already in the table |
| `MovieDatabase.Search` | lab-8-movie-via-proxy-lizhiquan/movie_database.py:130-150 | a row is found exactly when its title, director, language or year equals the query's |
| `MovieDatabase.SearchAppend` | lab-8-movie-via-proxy-lizhiquan/movie_database.py:130-150 | the search keeps table order |
| `MovieDatabase.InsertAsWritten` | lab-8-movie-via-proxy-lizhiquan/movie_database.py:90-106 | the row is appended with a fresh key. What comes back is the first row sharing any field with the movie, and the new row only when no earlier row shares one |
| `MovieDatabase.InsertReturnsMatch` | lab-8-movie-via-proxy-lizhiquan/movie_database.py:105-106 | what insert as written returns is some row of the table that shares a field with the movie |
| `MovieDatabase.InsertMayReturnOlderRow` | lab-8-movie-via-proxy-lizhiquan/movie_database.py:105-106 | a table holding a movie by the same director makes insert as written return that older movie, not the new row |
| `MovieDatabase.Insert` | lab-8-movie-via-proxy-lizhiquan/movie_database.py:90-106 | the row is appended with a fresh key, keys stay unique, and the movie returned is the new row with its key filled in |
| `MovieDatabase.InsertAgreesWithoutMatch` | lab-8-movie-via-proxy-lizhiquan/movie_database.py:90-106 | both readings store the same table, and return the same movie exactly when no earlier row shares a field with it |
| `MovieDatabase.Delete` | lab-8-movie-via-proxy-lizhiquan/movie_database.py:122-128 | exactly the rows with that key leave; every other row stays, and keys stay unique |
| `MovieProxy.AccessOf` | lab-8-movie-via-proxy-lizhiquan/movie_database_proxy.py:10-19 | "member" and "admin" are the only access values, each naming its level |
| `MovieProxy.Authenticate` | lab-8-movie-via-proxy-lizhiquan/movie_database_proxy.py:92-109 | the user of the first row, in sheet order, with those credentials and a valid access type. None when no row has them |
| `MovieProxy.UpdateCache` | lab-8-movie-via-proxy-lizhiquan/movie_database_proxy.py:111-118 | `_update_cache` keeps the cache a dict with no key twice; what it stores is stated by the four lemmas below |
| `MovieProxy.UpdateCacheKeys` | lab-8-movie-via-proxy-lizhiquan/movie_database_proxy.py:111-118 | refreshing removes nothing from the cache: its keys grow by exactly the movies' keys |
| `MovieProxy.UpdateCacheKeeps` | lab-8-movie-via-proxy-lizhiquan/movie_database_proxy.py:111-118 | a key no refreshed movie has keeps its cached movie, or stays absent |
| `MovieProxy.UpdateCacheStores` | lab-8-movie-via-proxy-lizhiquan/movie_database_proxy.py:111-118 | with unique keys, every refreshed movie ends up cached under its own key |
| `MovieProxy.UpdateCacheEntries` | lab-8-movie-via-proxy-lizhiquan/movie_database_proxy.py:111-118 | every cache entry afterwards was cached before, or is a refreshed movie under its key |
| `MovieProxy.NewProxy` | lab-8-movie-via-proxy-lizhiquan/movie_database_proxy.py:77-90 | credentials that no row accepts raise. Otherwise the proxy holds the accepted user, and the cache starts with the whole table |
| `MovieProxy.InsertAsWritten` | lab-8-movie-via-proxy-lizhiquan/movie_database_proxy.py:134-146 | a member is refused and nothing changes. For an administrator the table gains the row under a fresh key, and the movie the table's insert hands back is returned and cached under its key: the new row when no earlier row shares a field, otherwise the first such earlier row |
| `MovieProxy.ProxyInsertCachesOlderRow` | lab-8-movie-via-proxy-lizhiquan/movie_database_proxy.py:144-146 | with "Alien" by Scott stored, inserting "Gladiator" by Scott returns Alien and caches it under key 1, while the new row's key 2 stays uncached |
| `MovieProxy.Insert` | lab-8-movie-via-proxy-lizhiquan/movie_database_proxy.py:134-146 | the corrected insert, as its docstring promises: a member is refused and nothing changes. For an administrator the table gains the row, which is returned and cached under its fresh key |
| `MovieProxy.ProxyInsertsAgree` | lab-8-movie-via-proxy-lizhiquan/movie_database_proxy.py:144-146 | the as-written and corrected proxy inserts agree exactly when the caller is no administrator or no earlier row shares a field with the new movie |
| `MovieProxy.Delete` | lab-8-movie-via-proxy-lizhiquan/movie_database_proxy.py:157-165 | a member is refused and nothing changes. For an administrator the row leaves the table, then the key leaves the cache. A key that was not cached raises KeyError, with the row already gone |
| `MovieProxy.View` | lab-8-movie-via-proxy-lizhiquan/movie_database_proxy.py:148-155 | a non-empty cache answers as it is. An empty one is first refilled from the table. The answer is the cache's values |
| `MovieProxy.ViewRefills` | lab-8-movie-via-proxy-lizhiquan/movie_database_proxy.py:148-155 | viewing through an empty cache lists exactly the table's movies |
| `MovieProxy.CacheHits` | lab-8-movie-via-proxy-lizhiquan/movie_database_proxy.py:177-181 | the cached movies matching the query on any field |
| `MovieProxy.Search` | lab-8-movie-via-proxy-lizhiquan/movie_database_proxy.py:167-189 | cached matches answer without asking the table. Only when there are none is the table searched and its answers merged into the cache. Every answer matches the query |
| `MovieProxy.SearchCaches` | lab-8-movie-via-proxy-lizhiquan/movie_database_proxy.py:186-189 | after a search that reached the table, every movie it returned is cached under its key |
| `CryptoChain.Run` | lab-5-uncovering-secrets-lizhiquan/crypto_handlers.py:19-151 | the handlers that ran are a prefix of the chain, and a non-empty chain runs at least its head |
| `CryptoChain.RunResult` | lab-5-uncovering-secrets-lizhiquan/crypto_handlers.py:19-151 | a run returns True exactly when no handler of the chain stops, and then every handler ran. Otherwise it ends at the first handler that stops: False comes only from the validator, an exception only from a handler whose step raises |
| `CryptoChain.SetupHandlers` | lab-5-uncovering-secrets-lizhiquan/lab5_driver.py:32-81 | every chain starts with the key validator |
| `CryptoChain.SetupShape` | lab-5-uncovering-secrets-lizhiquan/lab5_driver.py:32-81 | every chain follows the order validate, read, crypt, write or print. Exactly the wired mode combinations get more than the validator. A wired chain reads a file iff the input is a file, uses the crypto handler of its mode, and ends in the printer or the file writer |
| `CryptoChain.ExecuteRequest` | lab-5-uncovering-secrets-lizhiquan/lab5_driver.py:83-93 | a key of the wrong character count gives False after the validator alone. Otherwise the request succeeds iff no wired step raises, and then every wired handler ran. A step that raises ends the run with neither answer |
| `CryptoChain.Utf8Width` | lab-5-uncovering-secrets-lizhiquan/crypto_handlers.py:110 | a character takes one to four bytes in UTF-8, and one exactly when it is ASCII |
| `CryptoChain.Utf8Length` | lab-5-uncovering-secrets-lizhiquan/crypto_handlers.py:110-111 | the byte length of the key DES is given is never below its character count |
| `CryptoChain.Utf8LengthAscii` | lab-5-uncovering-secrets-lizhiquan/crypto_handlers.py:45-46 | the character count the validator checks and the byte length DES checks agree exactly for an ASCII key |
| `CryptoChain.NonAsciiKeyRaises` | lab-5-uncovering-secrets-lizhiquan/crypto_handlers.py:45-47 | the eight-character key "é1234567" passes the validator, but it is nine bytes, so the encryption handler raises and the run ends with neither answer |
| `Rpsps.DefeatsTwo` | lab-0-rock-paper-scissors-python-spock-lizhiquan/game.py:20-26 | every choice defeats exactly two other choices and never itself |
| `Rpsps.ExactlyOneBeats` | lab-0-rock-paper-scissors-python-spock-lizhiquan/game.py:20-26 | of two different choices exactly one defeats the other |
| `Rpsps.Decide` | lab-0-rock-paper-scissors-python-spock-lizhiquan/game.py:53-57 | one draw of two different choices goes to player one exactly when player one's choice defeats the other's |
| `Rpsps.Game` | lab-0-rock-paper-scissors-python-spock-lizhiquan/game.py:37-57 | ties are drawn again, and the first draw of two different choices decides the game. No winner means every draw was a tie |
| `Rpsps.SimulateTournament` | lab-0-rock-paper-scissors-python-spock-lizhiquan/lab0_driver.py:8-32 | each round is credited to exactly one player: to player one when the winner's name is player one's, otherwise to player two. Player one is champion exactly with more wins; player two takes ties. With equal names every round goes to player one |
| `Rpsps.CountSplit` | lab-0-rock-paper-scissors-python-spock-lizhiquan/lab0_driver.py:24-27 | with two distinct names, the two win counts add up to the rounds played |
| `Rpsps.MajorityChampion` | lab-0-rock-paper-scissors-python-spock-lizhiquan/lab0_driver.py:29-32 | over an odd number of rounds the champion won a strict majority |
| `Rpsps.Champion` | lab-0-rock-paper-scissors-python-spock-lizhiquan/lab0_driver.py:29-32 | the champion is one of the two players, and with distinct names it is player one exactly when player one won a strict majority |
| `Rpsps.RoundsFor` | lab-0-rock-paper-scissors-python-spock-lizhiquan/lab0_driver.py:69-77 | options 1, 2 and 3 are best of 3, 5 and 7 rounds; anything else ends the session |
| `Rpsps.Session` | lab-0-rock-paper-scissors-python-spock-lizhiquan/lab0_driver.py:59-80 | one (champion, rounds) entry per tournament played, in order. The session stops at the first selection that is not 1, 2 or 3. When a tournament's draws number exactly its selected rounds (`range(num_rounds)`, line 21) and each names one of the players, its champion won a strict majority of them |
| `Vectors.Add` | lab-1-classy-asteroids-lizhiquan/vectors.py:84-90 | `__add__`: taking the second vector's coordinates off the sum gives the first vector's coordinates back |
| `Vectors.Sub` | lab-1-classy-asteroids-lizhiquan/vectors.py:92-98 | `__sub__`: adding the second vector back to the difference gives the first, coordinate by coordinate |
| `Vectors.Scale` | lab-1-classy-asteroids-lizhiquan/vectors.py:100-122 | `v * k` and `k * v`: the factor 1 leaves the vector as it is, the factor 0 gives the zero vector |
| `Vectors.ScaleInverse` | lab-1-classy-asteroids-lizhiquan/vectors.py:100-122 | scaling by a non-zero factor and then by its inverse gives the vector back |
| `Vectors.Cross` | lab-1-classy-asteroids-lizhiquan/vectors.py:100-113 | `v * w` for two vectors is the cross product, orthogonal to both factors |
| `Vectors.Equal` | lab-1-classy-asteroids-lizhiquan/vectors.py:131-138 | `__eq__` holds exactly when the two vectors are the same value |
| `Vectors.NotEqual` | lab-1-classy-asteroids-lizhiquan/vectors.py:140-146 | `__ne__` holds exactly when some coordinate differs |
| `Vectors.Less` | lab-1-classy-asteroids-lizhiquan/vectors.py:148-155 | `__lt__` compares magnitudes strictly, so it never holds between equal vectors |
| `Vectors.Greater` | lab-1-classy-asteroids-lizhiquan/vectors.py:157-164 | `a > b` holds exactly when `b < a` |
| `Vectors.LessEq` | lab-1-classy-asteroids-lizhiquan/vectors.py:166-173 | `__le__` is "less or equal as vectors" and never holds together with `a > b` |
| `Vectors.GreaterEq` | lab-1-classy-asteroids-lizhiquan/vectors.py:175-182 | `a >= b` holds exactly when `b <= a` |
| `Vectors.AddSubInverse` | lab-1-classy-asteroids-lizhiquan/vectors.py:84-98 | subtraction undoes addition, and addition is commutative |
| `Vectors.ScaleLaws` | lab-1-classy-asteroids-lizhiquan/vectors.py:100-122 | scaling distributes over addition and composes by multiplying the factors. Scaling by 1 changes nothing and by 0 gives the zero vector |
| `Vectors.CrossLaws` | lab-1-classy-asteroids-lizhiquan/vectors.py:100-113 | the cross product is anti-commutative, vanishes on a vector with itself, and is orthogonal to both factors |
| `Vectors.EqualIsIdentity` | lab-1-classy-asteroids-lizhiquan/vectors.py:131-146 | coordinate-wise equality is value equality, and `!=` is its negation |
| `Vectors.SquaresOrderMagnitudes` | lab-1-classy-asteroids-lizhiquan/vectors.py:148-164 | comparing squared magnitudes orders vectors exactly as comparing their magnitudes does |
| `Vectors.EqualMagnitudeIncomparable` | lab-1-classy-asteroids-lizhiquan/vectors.py:166-182 | two different vectors of the same magnitude are neither `<=` nor `>=` each other, since those operators test `<` or equality |
| `Vectors.AtMost` | lab-1-classy-asteroids-lizhiquan/vectors.py:166-173 | the corrected `<=` the docstring describes: holds exactly when `a > b` does not |
| `Vectors.AtLeast` | lab-1-classy-asteroids-lizhiquan/vectors.py:175-182 | the corrected `>=` the docstring describes: `b` is at most `a` |
| `Vectors.AtMostOrdersMagnitudes` | lab-1-classy-asteroids-lizhiquan/vectors.py:166-182 | the corrected comparisons order the magnitudes themselves, and of any two vectors one is at most the other |
| `Vectors.LessEqAgreesWithAtMost` | lab-1-classy-asteroids-lizhiquan/vectors.py:166-182 | `<=` as written implies the magnitude comparison; the two differ exactly on distinct vectors of equal magnitude, and so do the two `>=` |
| `Vectors.Get` | lab-1-classy-asteroids-lizhiquan/vectors.py:54-67 | "x", "y" and "z" give that coordinate of the vector; any other key is missing |
| `Vectors.Set` | lab-1-classy-asteroids-lizhiquan/vectors.py:69-82 | a key that names no coordinate changes nothing |
| `Vectors.SetThenGet` | lab-1-classy-asteroids-lizhiquan/vectors.py:69-82 | reading back a coordinate just set gives the value, and every other coordinate keeps its value |
| `Asteroids.MoveAsWritten` | lab-1-classy-asteroids-lizhiquan/celestial_bodies.py:46-70 | a move either stays put or adds the velocity, and changes nothing but the position |
| `Asteroids.MoveAsWrittenLeavesBounds` | lab-1-classy-asteroids-lizhiquan/celestial_bodies.py:56-60 | an asteroid at the origin with bounds 0 and 100, moving along -x, leaves its box under the move as written |
| `Asteroids.Move` | lab-1-classy-asteroids-lizhiquan/celestial_bodies.py:46-70 | the step is taken exactly when it stays within every given bound, 0 included; otherwise nothing changes |
| `Asteroids.MoveAgreesWithoutZeroBounds` | lab-1-classy-asteroids-lizhiquan/celestial_bodies.py:56-60 | the two readings agree whenever neither bound is 0 |
| `Asteroids.MoveKeepsInside` | lab-1-classy-asteroids-lizhiquan/celestial_bodies.py:46-70 | the corrected move keeps an asteroid that starts inside its bounds inside them |
| `Asteroids.MoveN` | lab-1-classy-asteroids-lizhiquan/celestial_bodies.py:46-70 | repeated moves keep the id, radius, velocity and bounds |
| `Asteroids.MoveNKeepsInside` | lab-1-classy-asteroids-lizhiquan/celestial_bodies.py:46-70 | any number of corrected moves keeps an asteroid inside its bounds |
| `Asteroids.RandomAsteroid` | lab-1-classy-asteroids-lizhiquan/celestial_bodies.py:90-101 | a generated asteroid starts inside its bounds of 0 and 100 |
| `Asteroids.NextId` | lab-1-classy-asteroids-lizhiquan/celestial_bodies.py:71-80 | the id issued is the counter's value, and the counter moves past it |
| `Asteroids.CreateIds` | lab-1-classy-asteroids-lizhiquan/celestial_bodies.py:18-80 | asteroids created one after another from a counter starting at 1 get the ids 1, 2, 3, ..., strictly increasing |
| `PokedexRequest.ParseMode` | assignment-3-an-object-oriented-pokedex-pikachu/cli_request.py:13-22 | `QueryMode(value)` succeeds exactly for the five mode values |
| `PokedexRequest.ModeRoundTrip` | assignment-3-an-object-oriented-pokedex-pikachu/cli_request.py:13-22 | parsing a mode's value gives the mode back |
| `PokedexRequest.ScanTxt` | assignment-3-an-object-oriented-pokedex-pikachu/cli_request.py:41 | the scan from a position finds ".txt" at or after it, with no newline before it, exactly when the pattern can match there |
| `PokedexRequest.MatchTxt` | assignment-3-an-object-oriented-pokedex-pikachu/cli_request.py:41-44 | the matcher decides `re.match(r'.+\.txt', s)`: ".txt" at index 1 or later, with no newline before it. What follows is not looked at |
| `PokedexRequest.TxtExamples` | assignment-3-an-object-oriented-pokedex-pikachu/cli_request.py:41-44 | "a.txt" and "a.txt.bak" pass; ".txt", a name with a newline before ".txt", and "a.tx" fail |
| `PokedexRequest.NewRequest` | assignment-3-an-object-oriented-pokedex-pikachu/cli_request.py:31-51 | a request is made exactly when a given input name and a given output name both match and the mode parses. The input name is checked first, then the output name, then the mode. Empty names are not checked |
| `PokedexRequest.SupportedModesExcludeStat` | assignment-3-an-object-oriented-pokedex-pikachu/cli_request.py:67-68 | the command line offers every mode but stat, each once |
| `Pokemon.LastEnglish` | assignment-3-an-object-oriented-pokedex-pikachu/pokemon.py:31-34 | the entry the loop leaves behind is an English entry with no English entry after it. There is none exactly when no entry is English |
| `Pokemon.ScanEffects` | assignment-3-an-object-oriented-pokedex-pikachu/pokemon.py:31-34 | the forward loop over the entries ends holding the last English entry |
| `Pokemon.HolderNames` | assignment-3-an-object-oriented-pokedex-pikachu/pokemon.py:35 | one name per holder, in input order |
| `Pokemon.NewAbility` | assignment-3-an-object-oriented-pokedex-pikachu/pokemon.py:16-35 | both effects come from the same, last, English entry, since a later English entry overwrites an earlier one, and are set exactly when some entry is English. The generation is its name, and the pokemon names are in input order |
| `Pokemon.NewItem` | assignment-3-an-object-oriented-pokedex-pikachu/pokemon.py:51-68 | the item's short effect is the last English entry's, and is unset exactly when no entry is English |
| `Pokemon.NewStat` | assignment-3-an-object-oriented-pokedex-pikachu/pokemon.py:83-97 | the damage class is set exactly when the object is a named one, and then is its name |
| `Pokemon.NewMove` | assignment-3-an-object-oriented-pokedex-pikachu/pokemon.py:111-136 | the move's short effect is the last English entry's, and the other fields are as given |
| `Pokemon.NewPokemon` | assignment-3-an-object-oriented-pokedex-pikachu/pokemon.py:155-183 | a pokemon is built exactly when every move has a version-group detail. Types, (stat, base) pairs, ability names and (move, first level) pairs are then in input order |
| `Pokemon.StatNames` | assignment-3-an-object-oriented-pokedex-pikachu/pokemon.py:185-193 | one name per stat, in order, read from a pair or from an expanded record |
| `Pokemon.MoveNames` | assignment-3-an-object-oriented-pokedex-pikachu/pokemon.py:195-203 | one name per move, in order, read from a pair or from an expanded record |
| `Pokemon.ExpansionKeepsNames` | assignment-3-an-object-oriented-pokedex-pikachu/pokemon.py:185-203 | replacing a pair by the record of the same name leaves the names unchanged |
| `Pokemon.BuiltNames` | assignment-3-an-object-oriented-pokedex-pikachu/pokemon.py:176-203 | on a freshly built pokemon the stat and move names are the input's names |
| `EnumMenu.GenerateMenuMap` | lab-10-star-wars-encyclopedia-lizhiquan/lab10_driver.py:46-59 | the menu's keys are exactly 1..n, and key i holds the i-th member in declaration order |
| `EnumMenu.Choose` | lab-10-star-wars-encyclopedia-lizhiquan/lab10_driver.py:73-80 | a choice is accepted exactly when it is a key of the menu |
| `EnumMenu.NumberingIsBijection` | lab-10-star-wars-encyclopedia-lizhiquan/lab10_driver.py:46-59 | with distinct members, choice i+1 selects member i. Different keys name different members, and every member has a key |
| `EnumMenu.NumberingUnique` | lab-10-star-wars-encyclopedia-lizhiquan/lab10_driver.py:46-59 | two menus numbering the same members are the same map |
| `EnumMenu.DriverMenus` | lab-10-star-wars-encyclopedia-lizhiquan/lab10_driver.py:22-25 | the output menu is 1 "Text File" and 2 "Console"; the query menu is 1 "starships" and 2 "planets". Choices 3 and 0 are invalid |
| `PyDict.Get` | lab-2-writing-solid-code-lizhiquan/lab2_driver.py:35-41 | `d.get(k)` finds a value exactly when the key is present, and then it is the value stored with it |
| `PyDict.Put` | lab-8-movie-via-proxy-lizhiquan/movie_database_proxy.py:117-118 | `d[k] = v` makes k map to v and leaves every other key alone. A present key keeps its position and a new key goes last |
| `PyDict.Remove` | lab-2-writing-solid-code-lizhiquan/lab2_driver.py:26-33 | removing a key leaves every other key alone, and removing an absent key changes nothing |
| `PyDict.PutFreshThenRemove` | lab-4-one-parent-is-better-than-2-lizhiquan/lab4_driver.py:26-49 | storing a new key and removing it again gives back the same dict, order included |
| `PyDict.KeysMatchKeySet` | lab-6-linguistic-error-handling-lizhiquan/custom_dictionary.py:77-78 | `list(d.keys())` lists every key exactly once |
| `PyDict.KeysValuesLength` | lab-8-movie-via-proxy-lizhiquan/movie_database_proxy.py:155 | `list(d.values())` lines up with the keys, one value per entry in order |
| `Text.DigitsRoundTrip` | assignment-2-supply-chain-ph/items.py:71-74 | `int(str(n))` gives back n for every natural number |
| `Text.FindFrom` | lab-6-linguistic-error-handling-lizhiquan/custom_dictionary.py:98 | the occurrence found is the first at or after the start, and none is found exactly when the separator does not occur there |
| `Text.Split` | lab-6-linguistic-error-handling-lizhiquan/custom_dictionary.py:98 | `str.split` on a non-empty separator always gives at least one piece; the pieces join back to the string (`Text.SplitJoin`) |
| `Text.Join` | lab-6-linguistic-error-handling-lizhiquan/custom_dictionary.py:98 | `sep.join` of a single piece is that piece |
| `Text.SplitJoin` | lab-6-linguistic-error-handling-lizhiquan/custom_dictionary.py:98 | splitting loses nothing: joining the pieces with the separator gives the string back |
| `Text.SplitPiecesFree` | lab-6-linguistic-error-handling-lizhiquan/custom_dictionary.py:98 | no piece of a split contains the separator |
| `Text.SplitNoOccurrence` | lab-6-linguistic-error-handling-lizhiquan/custom_dictionary.py:98 | a string without the separator splits into itself |
| `Text.SplitAtFirst` | lab-6-linguistic-error-handling-lizhiquan/custom_dictionary.py:98 | the text before the first separator is the first piece, and the rest is split on |
| `Text.NonEmpty` | lab-6-linguistic-error-handling-lizhiquan/custom_dictionary.py:99 | `filter(None, xs)` keeps exactly the non-empty strings |
| `Text.NonEmptyAppendEmpty` | lab-6-linguistic-error-handling-lizhiquan/custom_dictionary.py:99 | the empty piece left by a final newline is dropped |

## Left out

- Console input and output: every prompt, menu printout and message is left out. Answers the user types become parameters (the `Prompts` module keeps the value rules of the prompt loops, over a sequence of answers). `user_menu.py`, `lab6_driver.py`, `lab8_driver.py` and the other drivers are not part of this model beyond the loops cited above.
- Files, spreadsheets and the database engine: the dictionary text, the order sheet, the user-account sheet, the item sheets and the daily report are values, not files. The SQLite table is a sequence of rows in insertion order with keys one above the largest key so far. Row order, the exact key algorithm and commit semantics are not modelled further.
- Randomness and the clock: random choices, random vectors, `datetime.now` and `date.today` are parameters. Transaction and asteroid timestamps are plain values.
- Floating point: money and vector coordinates are `real`, so float rounding at an exact threshold (for example spent/total equal to 1.2) is not modelled. Ratios are compared by multiplying, never by dividing.
- `Vectors.Get`: the "magnitude" key is left out, because it needs a square root. Magnitudes are compared through their squares (`SquaresOrderMagnitudes`).
- DES encryption, decryption and the crypto file handlers are abstract steps: `CryptoChain` records which handlers ran and which step raised, not what they computed. Whether the input file reads, the output file opens and the data decrypts is given as a parameter (`CryptoChain.Env`). Command-line parsing with argparse is left out.
- The network, async requests and threads (the Pokedex and Star Wars request code, lab 11) are left out. `Pokemon` starts from JSON already decoded into records.
- Pokemon: an effect attribute that the source never sets (no English entry) is `None` here, where the source raises AttributeError on a later read.
- `Pokemon.NewPokemon`: the error for a move without version-group details does not carry the move's name.
- Formatting: `__str__` methods, f-string messages and the difflib suggestions attached to WordNotFoundError are left out.
- `SupplyItems.NewSantaWorkshop`, `SupplyItems.NewRCSpider`, `SupplyItems.NewRobotBunny`, `SupplyItems.NewDancingSkeleton`, `SupplyItems.NewReindeer`, `SupplyItems.NewEasterBunny`, `SupplyItems.NewPumpkinCaramelToffee`, `SupplyItems.NewCandyCanes` and `SupplyItems.NewCremeEggs` state only that what they build is valid. The converse, that valid arguments are accepted, is `SupplyFactory.CreateComplete`.
- `SupplyItems.IdShapeUnique`: the id patterns are `^...$` searches, and Python's `$` also matches before one final newline. The model takes them as exact matches, so an id or dimension string ending in "\n" is rejected here and accepted by the source. The same holds for `Library.NewManga`, `Library.NewGame` and `Library.NewMovie`, and for `Wallet.AccessIdCard` and `Wallet.AccessCreditCard`.
- `IdCards.ValidateCard`: `str.isdigit` also accepts non-ASCII digits; the model accepts ASCII digits only.
- `SupplyItems.Int`: `int(...)` also accepts surrounding whitespace, a sign and underscores between digits; the model accepts a whole number or plain ASCII digits only.
- `SupplyItems.Arg`: product details come from spreadsheet cells. A cell holds text, a whole number or a blank; other pandas values are not modelled.
- `Ledger.Admit`: a category without a budget is the rejection `MissingBudget`, reached after the account and balance checks. The source raises AttributeError at that point.
- `Rpsps.Game`: the draws are a finite sequence, so when every draw is a tie there is no winner (`None`); the source keeps drawing forever.
- `Rpsps.SimulateTournament`: takes the round winners already drawn and requires each to be one of the two names, which is what `simulate_game` returns.
- `WordDictionary.ExportQueried`: Python leaves the iteration order of a set unspecified, so the order of the queried words is a parameter.
- `MovieProxy.Authenticate`: a sheet row that fails to build a `User` is skipped, as in the source; the sheet's other columns are not modelled.
- `SupplyStore.ProcessAll`: states only that the history grows by at least one line per order, keeping earlier lines; the per-order facts are in `SupplyStore.ProcessOrder`.
- `Library.LoadItems`: the factory menu, and the errors for a missing file or a bad sheet, are left out. The items produced are a parameter.
- Record-only classes (`user.py` and `transaction.py` of both versions, `person.py`, the Star Wars entities) appear only as datatypes.

## Findings

| source | as written | input that shows it | evidently intended | confidence | as-written member | corrected member |
|---|---|---|---|---|---|---|
| lab-1-classy-asteroids-lizhiquan/celestial_bodies.py:56-60 | `if self.min_bound:` skips the lower-bound check when the bound is 0, and a random asteroid's lower bound is always 0 | an asteroid at (0, 0, 0) with velocity (-1, 0, 0) and bounds 0 and 100 moves to (-1, 0, 0), outside its box | check the bound whenever it is given (`is not None`) | high, not executed | `Asteroids.MoveAsWritten`, `Asteroids.MoveAsWrittenLeavesBounds` | `Asteroids.Move`, `Asteroids.MoveKeepsInside`, `Asteroids.MoveNKeepsInside` |
| lab-8-movie-via-proxy-lizhiquan/movie_database.py:105-106 | `insert` reads the new movie back with an OR search on its fields and returns the first hit | a table holding (1, "Alien", "Scott", "en", 1979); inserting "Gladiator" by Scott in 2000 returns the Alien row, and the proxy caches it instead of the new row | return the row just inserted, with its new key, as the docstring says | high, not executed | `MovieDatabase.InsertAsWritten`, `MovieDatabase.InsertMayReturnOlderRow`, `MovieProxy.InsertAsWritten`, `MovieProxy.ProxyInsertCachesOlderRow` | `MovieDatabase.Insert`, `MovieDatabase.InsertAgreesWithoutMatch`, `MovieProxy.Insert`, `MovieProxy.ProxyInsertsAgree` |
| lab-1-classy-asteroids-lizhiquan/vectors.py:166-182 | `__le__` returns `self < other or self == other`, and `__ge__` the mirror image, while their docstrings promise a comparison of magnitudes | (1, 0, 0) and (0, 1, 0) have the same magnitude, yet neither is `<=` nor `>=` the other | compare the magnitudes with `<=` and `>=` | medium, not executed | `Vectors.LessEq`, `Vectors.GreaterEq`, `Vectors.EqualMagnitudeIncomparable`, `Vectors.UnitVectorsIncomparable` | `Vectors.AtMost`, `Vectors.AtLeast`, `Vectors.AtMostOrdersMagnitudes`, `Vectors.LessEqAgreesWithAtMost` |
