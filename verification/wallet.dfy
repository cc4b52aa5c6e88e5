/** The wallet of ID and credit cards: card-number formats, access rules,
    the id-keyed card store and its iterator. The current time is a
    parameter; times are instants on one ordered scale. */
module Wallet {
  import opened Wrappers
  import opened Text
  import PyDict

  type Instant = int

  datatype Card =
    | IDCard(name: string, idNumber: string, expiry: Instant)
    | CreditCard(name: string, idNumber: string, expiry: Instant, balance: real)

  /** `validate_id_card_number`: the whole string matches `ARD[0-9]{6}`. */
  predicate ValidIdCardNumber(s: string) {
    |s| == 9 && s[..3] == "ARD" && IsDigitsOfLength(s[3..], 6)
  }

  /** `validate_credit_card_number`: the whole string matches `[0-9]{16}`. */
  predicate ValidCreditCardNumber(s: string) {
    IsDigitsOfLength(s, 16)
  }

  /** The ID number format read as a language: "ARD" and six digits. */
  lemma IdNumberConcat(digits: string)
    ensures ValidIdCardNumber("ARD" + digits) <==> IsDigitsOfLength(digits, 6)
  {
    var s := "ARD" + digits;
    assert s[..3] == "ARD" && s[3..] == digits;
  }

  /** No number is valid for both kinds of card: an ID number starts with
      a letter. */
  lemma NumberFormatsDisjoint(s: string)
    ensures !(ValidIdCardNumber(s) && ValidCreditCardNumber(s))
  {
    if ValidIdCardNumber(s) {
      assert s[0] == s[..3][0] == 'A';
    }
  }

  /** `IDCard.access_card`: false once the expiry instant is reached, false
      for a malformed number, true otherwise. */
  function AccessIdCard(c: Card, now: Instant): (r: bool)
    requires c.IDCard?
    ensures r <==> now < c.expiry && ValidIdCardNumber(c.idNumber)
  {
    if now >= c.expiry then false
    else if !ValidIdCardNumber(c.idNumber) then false
    else true
  }

  /** `CreditCard.access_card` for a charge the prompt loop has already
      made positive. An expired card or a malformed number fails before any
      charge; a charge above the balance fails with no change; otherwise,
      equality included, the balance drops by the charge. */
  function AccessCreditCard(c: Card, now: Instant, charge: real): (r: (bool, Card))
    requires c.CreditCard? && charge > 0.0
    ensures r.1.CreditCard? && r.1.idNumber == c.idNumber && r.1.expiry == c.expiry && r.1.name == c.name
    ensures r.0 <==> now < c.expiry && ValidCreditCardNumber(c.idNumber) && charge <= c.balance
    ensures r.0 ==> r.1.balance == c.balance - charge
    ensures !r.0 ==> r.1 == c
  {
    if now >= c.expiry then (false, c)
    else if !ValidCreditCardNumber(c.idNumber) then (false, c)
    else if c.balance < charge then (false, c)
    else (true, c.(balance := c.balance - charge))
  }

  /** The creator only accepts a starting balance of at least 0, and no
      charge takes the balance below 0. */
  lemma {:induction false} BalanceNeverNegative(c: Card, now: Instant, charges: seq<real>)
    requires c.CreditCard? && c.balance >= 0.0
    requires forall i :: 0 <= i < |charges| ==> charges[i] > 0.0
    ensures ChargeAll(c, now, charges).balance >= 0.0
    decreases |charges|
  {
    if |charges| > 0 {
      BalanceNeverNegative(AccessCreditCard(c, now, charges[0]).1, now, charges[1..]);
    }
  }

  /** Successive accesses of one credit card. */
  function ChargeAll(c: Card, now: Instant, charges: seq<real>): (r: Card)
    requires c.CreditCard?
    requires forall i :: 0 <= i < |charges| ==> charges[i] > 0.0
    ensures r.CreditCard? && r.idNumber == c.idNumber
    ensures r.balance <= c.balance
    decreases |charges|
  {
    if |charges| == 0 then c else ChargeAll(AccessCreditCard(c, now, charges[0]).1, now, charges[1..])
  }

  // ----- Wallet -----

  type Cards = PyDict.Dict<string, Card>

  /** `add_card`: stores the card under its number, replacing any card with
      the same number. */
  function AddCard(w: Cards, c: Card): (r: Cards)
    requires PyDict.Wf(w)
    ensures PyDict.Wf(r)
    ensures PyDict.Get(r, c.idNumber) == Some(c)
    ensures forall n :: n != c.idNumber ==> PyDict.Get(r, n) == PyDict.Get(w, n)
    ensures |PyDict.Keys(r)| == |PyDict.Keys(w)| + (if c.idNumber in PyDict.KeySet(w) then 0 else 1)
  {
    PyDict.Put(w, c.idNumber, c)
  }

  /** `remove_card`: `cards.pop(number, None)`, the removed card or None;
      the number is absent afterwards. */
  function RemoveCard(w: Cards, number: string): (r: (Option<Card>, Cards))
    requires PyDict.Wf(w)
    ensures PyDict.Wf(r.1)
    ensures r.0 == PyDict.Get(w, number)
    ensures PyDict.Get(r.1, number) == None
    ensures forall n :: n != number ==> PyDict.Get(r.1, n) == PyDict.Get(w, n)
  {
    (PyDict.Get(w, number), PyDict.Remove(w, number))
  }

  /** Removing what was just added gives back the card that was added. */
  lemma AddThenRemoveReturnsCard(w: Cards, c: Card)
    requires PyDict.Wf(w)
    ensures RemoveCard(AddCard(w, c), c.idNumber).0 == Some(c)
    ensures c.idNumber !in PyDict.KeySet(w) ==> RemoveCard(AddCard(w, c), c.idNumber).1 == w
  {
    if c.idNumber !in PyDict.KeySet(w) {
      PyDict.PutFreshThenRemove(w, c.idNumber, c);
    }
  }

  /** `search_card`: `cards.get(number, None)`. */
  function SearchCard(w: Cards, number: string): (r: Option<Card>)
    requires PyDict.Wf(w)
    ensures r.Some? <==> number in PyDict.KeySet(w)
    ensures r.Some? ==> (number, r.value) in w
  {
    PyDict.Get(w, number)
  }

  /** The menu's "access card": `search_card`, then `access_card` on the
      card found. The card is the object the wallet holds, so a charge stays
      on the stored card. None is "Card not found!"; otherwise whether the
      access succeeded, with the card written back under its number. */
  function AccessCard(w: Cards, number: string, now: Instant, charge: real): (r: (Option<bool>, Cards))
    requires PyDict.Wf(w) && charge > 0.0
    ensures PyDict.Wf(r.1) && PyDict.Keys(r.1) == PyDict.Keys(w)
    ensures r.0.None? <==> number !in PyDict.KeySet(w)
    ensures r.0.None? ==> r.1 == w
    ensures forall n :: n != number ==> PyDict.Get(r.1, n) == PyDict.Get(w, n)
    ensures r.0.Some? && SearchCard(w, number).value.IDCard? ==>
              r.0.value == AccessIdCard(SearchCard(w, number).value, now) && r.1 == w
    ensures r.0.Some? && SearchCard(w, number).value.CreditCard? ==>
              && r.0.value == AccessCreditCard(SearchCard(w, number).value, now, charge).0
              && SearchCard(r.1, number) == Some(AccessCreditCard(SearchCard(w, number).value, now, charge).1)
  {
    match SearchCard(w, number)
    case None => (None, w)
    case Some(c) =>
      if c.IDCard? then (Some(AccessIdCard(c, now)), w)
      else
        var (ok, charged) := AccessCreditCard(c, now, charge);
        (Some(ok), PyDict.Put(w, number, charged))
  }

  /** A second access sees the first charge: accessing a stored credit card
      twice leaves it charged as by both charges in turn. */
  lemma AccessTwiceChargesBoth(w: Cards, number: string, now: Instant, a: real, b: real)
    requires PyDict.Wf(w) && a > 0.0 && b > 0.0
    requires SearchCard(w, number).Some? && SearchCard(w, number).value.CreditCard?
    ensures SearchCard(AccessCard(AccessCard(w, number, now, a).1, number, now, b).1, number)
              == Some(ChargeAll(SearchCard(w, number).value, now, [a, b]))
  {
    var c := SearchCard(w, number).value;
    var once := AccessCard(w, number, now, a).1;
    var c1 := AccessCreditCard(c, now, a).1;
    assert SearchCard(once, number) == Some(c1);
    assert [a, b][1..] == [b];
    assert ChargeAll(c, now, [a, b]) == ChargeAll(c1, now, [b]);
    assert [b][1..] == [];
  }

  // ----- CardIterator -----

  /** A snapshot of the wallet's cards and the index of the next one. */
  datatype CardIterator = CardIterator(cards: seq<Card>, index: nat)

  /** `Wallet.__iter__`: a new iterator over the cards in wallet order. */
  function Iter(w: Cards): (r: CardIterator)
    ensures r.index == 0 && |r.cards| == |w|
    ensures forall i :: 0 <= i < |w| ==> r.cards[i] == w[i].1
  {
    PyDict.KeysValuesLength(w);
    CardIterator(PyDict.Values(w), 0)
  }

  /** `CardIterator.__iter__`: a fresh iterator over the same list, back at
      the first card. */
  function Restart(it: CardIterator): (r: CardIterator)
    ensures r.cards == it.cards && r.index == 0
  {
    CardIterator(it.cards, 0)
  }

  /** `__next__`: the next card and whether it is still valid now; None
      stands for StopIteration. */
  function Next(it: CardIterator, now: Instant): (r: Option<((Card, bool), CardIterator)>)
    ensures r.None? <==> it.index >= |it.cards|
    ensures r.Some? ==> && r.value.0 == (it.cards[it.index], now < it.cards[it.index].expiry)
                        && r.value.1 == it.(index := it.index + 1)
  {
    if it.index >= |it.cards| then None
    else
      var card := it.cards[it.index];
      Some(((card, now < card.expiry), it.(index := it.index + 1)))
  }

  /** A `for` loop over the iterator: every remaining card exactly once, in
      order, each with its validity, then StopIteration. */
  method Drain(it: CardIterator, now: Instant) returns (seen: seq<(Card, bool)>, rest: CardIterator)
    requires it.index <= |it.cards|
    ensures |seen| == |it.cards| - it.index
    ensures forall i :: 0 <= i < |seen| ==>
              seen[i] == (it.cards[it.index + i], now < it.cards[it.index + i].expiry)
    ensures Next(rest, now).None? && rest.cards == it.cards
  {
    seen := [];
    rest := it;
    var step := Next(rest, now);
    while step.Some?
      invariant rest.cards == it.cards && it.index <= rest.index <= |it.cards|
      invariant step == Next(rest, now)
      invariant |seen| == rest.index - it.index
      invariant forall i :: 0 <= i < |seen| ==>
                  seen[i] == (it.cards[it.index + i], now < it.cards[it.index + i].expiry)
      decreases |it.cards| - rest.index
    {
      seen := seen + [step.value.0];
      rest := step.value.1;
      step := Next(rest, now);
    }
  }
}
