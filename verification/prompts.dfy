/** The re-prompting input loops of the creators: ask again until an answer
    meets the constraint. The answers the user would type are a parameter;
    running out of answers is `None` (the program would keep asking). */
module Prompts {
  import opened Wrappers

  /** The index of the first answer that `ok` accepts. */
  method FirstAccepted<T>(answers: seq<T>, ok: T -> bool) returns (r: Option<nat>)
    ensures r.Some? ==> r.value < |answers| && ok(answers[r.value])
    ensures r.Some? ==> forall j :: 0 <= j < r.value ==> !ok(answers[j])
    ensures r.None? <==> forall j :: 0 <= j < |answers| ==> !ok(answers[j])
  {
    var i := 0;
    while i < |answers|
      invariant i <= |answers|
      invariant forall j :: 0 <= j < i ==> !ok(answers[j])
    {
      if ok(answers[i]) {
        return Some(i);
      }
      i := i + 1;
    }
    return None;
  }

  /** `create_budget`: an amount is accepted only when it is above zero. */
  method BudgetAmount(answers: seq<real>) returns (r: Option<real>)
    ensures r.Some? ==> r.value > 0.0
    ensures r.Some? ==> exists i :: 0 <= i < |answers| && answers[i] == r.value && forall j :: 0 <= j < i ==> answers[j] <= 0.0
    ensures r.None? <==> forall j :: 0 <= j < |answers| ==> answers[j] <= 0.0
  {
    var i := FirstAccepted(answers, (x: real) => x > 0.0);
    r := if i.Some? then Some(answers[i.value]) else None;
  }

  /** `create_bank_account`: an opening balance is accepted when it is at
      least zero. */
  method OpeningBalance(answers: seq<real>) returns (r: Option<real>)
    ensures r.Some? ==> r.value >= 0.0
    ensures r.Some? ==> exists i :: 0 <= i < |answers| && answers[i] == r.value && forall j :: 0 <= j < i ==> answers[j] < 0.0
    ensures r.None? <==> forall j :: 0 <= j < |answers| ==> answers[j] < 0.0
  {
    var i := FirstAccepted(answers, (x: real) => x >= 0.0);
    r := if i.Some? then Some(answers[i.value]) else None;
  }

  /** `execute_budgets_menu`: a choice is accepted when it is in 1..n; the
      result is the position it selects, counted from zero. */
  method MenuChoice(answers: seq<int>, n: nat) returns (r: Option<nat>)
    ensures r.Some? ==> r.value < n
    ensures r.Some? ==> exists i :: 0 <= i < |answers| && answers[i] == r.value + 1 && forall j :: 0 <= j < i ==> answers[j] < 1 || answers[j] > n
    ensures r.None? <==> forall j :: 0 <= j < |answers| ==> answers[j] < 1 || answers[j] > n
  {
    var i := FirstAccepted(answers, (c: int) => 1 <= c <= n);
    r := if i.Some? then Some(answers[i.value] - 1) else None;
  }
}
