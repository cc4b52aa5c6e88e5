/** Cards with an issuer and an id, and the card manager that keeps them by
    id. Identity, transit and gift cards each have their own validity rule;
    "today" is a parameter instead of the system clock. */
module IdCards {
  import opened Wrappers
  import opened Text
  import PyDict

  /** A calendar date; dates compare by year, then month, then day. */
  datatype Date = Date(year: int, month: int, day: int)

  predicate Before(a: Date, b: Date) {
    a.year < b.year
    || (a.year == b.year && a.month < b.month)
    || (a.year == b.year && a.month == b.month && a.day < b.day)
  }

  /** `ExpiryDate.expired`: today is on or after the expiry date. */
  function Expired(expiry: Date, today: Date): (r: bool)
    ensures r <==> !Before(today, expiry)
    ensures today == expiry ==> r
  {
    if Before(today, expiry) then false else true
  }

  /** Python's `date` order is total: of two distinct dates exactly one
      comes first, so a card is expired exactly from its expiry day on. */
  lemma ExpiryOrder(expiry: Date, today: Date)
    ensures Expired(expiry, today) <==> today == expiry || Before(expiry, today)
  {
  }

  /** The value of a contact field: text, or a date of birth. */
  datatype Detail = TextDetail(text: string) | DateDetail(date: Date)

  /** Only the name is mandatory; absent fields are None. */
  datatype ContactDetails = ContactDetails(
    name: string,
    dateOfBirth: Option<Date>,
    address: Option<string>,
    email: Option<string>,
    telNumber: Option<string>)

  /** Python truthiness of an optional text field: present and non-empty. */
  predicate Truthy(s: Option<string>) {
    s.Some? && |s.value| > 0
  }

  /** The display labels of `ContactDetails.field_map`, in attribute order. */
  datatype Field = NameField | BirthField | AddressField | EmailField | TelField

  function FieldLabel(f: Field): string {
    match f
    case NameField => "Name"
    case BirthField => "Date of Birth"
    case AddressField => "Address"
    case EmailField => "E-mail"
    case TelField => "Telephone Number"
  }

  /** `get_details`: the truthy fields under their display labels, in
      attribute order. A date is always truthy; text only when non-empty. */
  function GetDetails(c: ContactDetails): (r: PyDict.Dict<Field, Detail>)
    ensures PyDict.Wf(r)
    ensures PyDict.Get(r, NameField) == if |c.name| > 0 then Some(TextDetail(c.name)) else None
    ensures PyDict.Get(r, BirthField) == if c.dateOfBirth.Some? then Some(DateDetail(c.dateOfBirth.value)) else None
    ensures PyDict.Get(r, AddressField) == if Truthy(c.address) then Some(TextDetail(c.address.value)) else None
    ensures PyDict.Get(r, EmailField) == if Truthy(c.email) then Some(TextDetail(c.email.value)) else None
    ensures PyDict.Get(r, TelField) == if Truthy(c.telNumber) then Some(TextDetail(c.telNumber.value)) else None
  {
    var d1 := PutIf([], |c.name| > 0, NameField, TextDetail(c.name));
    var d2 := PutIf(d1, c.dateOfBirth.Some?, BirthField, DateDetail(c.dateOfBirth.GetOr(Date(0, 0, 0))));
    var d3 := PutIf(d2, Truthy(c.address), AddressField, TextDetail(c.address.GetOr("")));
    var d4 := PutIf(d3, Truthy(c.email), EmailField, TextDetail(c.email.GetOr("")));
    var d5 := PutIf(d4, Truthy(c.telNumber), TelField, TextDetail(c.telNumber.GetOr("")));
    assert PyDict.Get(d5, NameField) == PyDict.Get(d1, NameField);
    assert PyDict.Get(d5, BirthField) == PyDict.Get(d2, BirthField);
    assert PyDict.Get(d5, AddressField) == PyDict.Get(d3, AddressField);
    assert PyDict.Get(d5, EmailField) == PyDict.Get(d4, EmailField);
    d5
  }

  /** One turn of the loop in `get_details`: the entry is stored only when
      its field is truthy. */
  function PutIf(d: PyDict.Dict<Field, Detail>, truthy: bool, field: Field, v: Detail): (r: PyDict.Dict<Field, Detail>)
    requires PyDict.Wf(d)
    ensures PyDict.Wf(r)
    ensures PyDict.Get(r, field) == if truthy then Some(v) else PyDict.Get(d, field)
    ensures forall j :: j != field ==> PyDict.Get(r, j) == PyDict.Get(d, j)
  {
    if truthy then PyDict.Put(d, field, v) else d
  }

  datatype Card =
    | IDCard(issuer: string, cardId: string, contact: ContactDetails, expiry: Date)
    | TransitCard(issuer: string, cardId: string, balance: real, contact: ContactDetails, hasMonthlyPass: bool)
    | GiftCard(issuer: string, cardId: string, balance: real, expiry: Date)

  /** `card_id[:1] == letter and card_id[1:].isdigit()`. */
  predicate IdFormat(id: string, letter: char) {
    |id| >= 1 && id[0] == letter && IsDigitString(id[1..])
  }

  /** The id rule read as a language: a letter followed by one or more
      digits. */
  lemma IdFormatConcat(letter: char, digits: string)
    ensures IdFormat([letter] + digits, letter) <==> IsDigitString(digits)
  {
    assert ([letter] + digits)[1..] == digits;
  }

  /** `validate_card` of each card kind. */
  function ValidateCard(c: Card, today: Date): (r: bool)
    ensures c.IDCard? ==> (r <==> !Expired(c.expiry, today) && IdFormat(c.cardId, 'A'))
    ensures c.TransitCard? ==> (r <==> c.balance >= 0.0 && IdFormat(c.cardId, 'T'))
    ensures c.GiftCard? ==> (r <==> c.balance >= 0.0 && !Expired(c.expiry, today) && IdFormat(c.cardId, 'G'))
  {
    match c
    case IDCard(_, id, _, expiry) => !Expired(expiry, today) && LeadsWith(id, 'A')
    case TransitCard(_, id, balance, _, _) => BalanceValid(balance) && LeadsWith(id, 'T')
    case GiftCard(_, id, balance, expiry) => BalanceValid(balance) && !Expired(expiry, today) && LeadsWith(id, 'G')
  }

  /** The id test as Python evaluates it, where slicing an empty string
      gives the empty string. */
  function LeadsWith(id: string, letter: char): (r: bool)
    ensures r <==> IdFormat(id, letter)
  {
    var head := if |id| == 0 then "" else id[..1];
    var rest := if |id| == 0 then "" else id[1..];
    head == [letter] && IsDigitString(rest)
  }

  /** `BalanceCard.validate_card`, the part every balance card shares. */
  predicate BalanceValid(balance: real) {
    balance >= 0.0
  }

  /** The ids of the three kinds never overlap, so no id makes cards of two
      kinds valid. */
  lemma ValidKindsDisjoint(a: Card, b: Card, today: Date)
    requires ValidateCard(a, today) && ValidateCard(b, today)
    requires a.cardId == b.cardId
    ensures a.IDCard? == b.IDCard? && a.TransitCard? == b.TransitCard? && a.GiftCard? == b.GiftCard?
  {
  }

  /** A transit card's validity does not depend on the date. */
  lemma TransitIgnoresDate(c: Card, d1: Date, d2: Date)
    requires c.TransitCard?
    ensures ValidateCard(c, d1) == ValidateCard(c, d2)
  {
  }

  /** `TransitCard.__init__`: only exactly "y" gives a monthly pass. */
  function NewTransitCard(issuer: string, cardId: string, balance: real, name: string, email: string, monthlyPass: string): (c: Card)
    ensures c.TransitCard? && c.cardId == cardId && c.balance == balance
    ensures c.hasMonthlyPass <==> monthlyPass == "y"
    ensures c.contact == ContactDetails(name, None, None, Some(email), None)
  {
    TransitCard(issuer, cardId, balance, ContactDetails(name, None, None, Some(email), None), monthlyPass == "y")
  }

  datatype Kind = IDKind | TransitKind | GiftKind

  const CardFields: PyDict.Dict<string, string> := [("issuer_name", "Issuer Organization"), ("card_id", "Card ID")]

  /** `get_fields` of each card class: the parent's fields followed by the
      class's own. */
  function GetFields(k: Kind): (r: PyDict.Dict<string, string>)
    ensures |r| > |CardFields| && r[..|CardFields|] == CardFields
    ensures k != IDKind ==> |r| > 3 && r[2] == ("balance", "Balance")
  {
    match k
    case IDKind =>
      CardFields + [("name", "Name"), ("dob_year", "Date of Birth Year"), ("dob_month", "Date of Birth Month"),
                    ("dob_day", "Date of Birth Day"), ("expiry_year", "Expiry Year"),
                    ("expiry_month", "Expiry Month"), ("expiry_day", "Expiry Day")]
    case TransitKind =>
      CardFields + [("balance", "Balance"), ("name", "Contact Name"), ("email", "Contact Email"),
                    ("monthly_pass", "Has Monthly Pass (y/n)")]
    case GiftKind =>
      CardFields + [("balance", "Balance"), ("expiry_year", "Expiry Year"),
                    ("expiry_month", "Expiry Month"), ("expiry_day", "Expiry Day")]
  }

  /** The transit card asks for exactly these fields, in this order. */
  lemma TransitFields()
    ensures PyDict.Keys(GetFields(TransitKind)) == ["issuer_name", "card_id", "balance", "name", "email", "monthly_pass"]
  {
  }

  // ----- CardManager -----

  type Manager = PyDict.Dict<string, Card>

  /** Every card is stored under its own id and no id repeats. */
  predicate Keyed(m: Manager) {
    PyDict.Wf(m) && forall i :: 0 <= i < |m| ==> m[i].0 == m[i].1.cardId
  }

  /** `add_card`: adds and answers true only for an id not yet present;
      otherwise keeps the existing card and answers false. */
  function AddCard(m: Manager, c: Card): (r: (bool, Manager))
    requires Keyed(m)
    ensures Keyed(r.1)
    ensures r.0 <==> c.cardId !in PyDict.KeySet(m)
    ensures r.0 ==> PyDict.Get(r.1, c.cardId) == Some(c) && PyDict.Keys(r.1) == PyDict.Keys(m) + [c.cardId]
    ensures !r.0 ==> r.1 == m
    ensures forall id :: id != c.cardId ==> PyDict.Get(r.1, id) == PyDict.Get(m, id)
  {
    if c.cardId !in PyDict.KeySet(m) then
      var m' := PyDict.Put(m, c.cardId, c);
      PutKeyed(m, c);
      (true, m')
    else (false, m)
  }

  lemma {:induction false} PutKeyed(m: Manager, c: Card)
    requires Keyed(m) && c.cardId !in PyDict.KeySet(m)
    ensures Keyed(PyDict.Put(m, c.cardId, c))
  {
    if |m| > 0 {
      assert Keyed(m[1..]) by {
        forall i | 0 <= i < |m[1..]| ensures m[1..][i].0 == m[1..][i].1.cardId {
          assert m[1..][i] == m[i + 1];
        }
      }
      PutKeyed(m[1..], c);
      var tail := PyDict.Put(m[1..], c.cardId, c);
      assert PyDict.Put(m, c.cardId, c) == [m[0]] + tail;
    }
  }

  lemma {:induction false} RemoveKeyed(m: Manager, id: string)
    requires Keyed(m)
    ensures Keyed(PyDict.Remove(m, id))
  {
    if |m| > 0 {
      assert Keyed(m[1..]) by {
        forall i | 0 <= i < |m[1..]| ensures m[1..][i].0 == m[1..][i].1.cardId {
          assert m[1..][i] == m[i + 1];
        }
      }
      RemoveKeyed(m[1..], id);
      if m[0].0 != id {
        var tail := PyDict.Remove(m[1..], id);
        assert PyDict.Remove(m, id) == [m[0]] + tail;
      }
    }
  }

  /** `remove_card`: deletes and answers true iff the id is present. */
  function RemoveCard(m: Manager, id: string): (r: (bool, Manager))
    requires Keyed(m)
    ensures Keyed(r.1)
    ensures r.0 <==> id in PyDict.KeySet(m)
    ensures PyDict.Get(r.1, id) == None
    ensures forall j :: j != id ==> PyDict.Get(r.1, j) == PyDict.Get(m, j)
    ensures !r.0 ==> r.1 == m
  {
    RemoveKeyed(m, id);
    (id in PyDict.KeySet(m), PyDict.Remove(m, id))
  }

  /** `find_card`: the card stored under the id, or None. */
  function FindCard(m: Manager, id: string): (r: Option<Card>)
    requires Keyed(m)
    ensures r.Some? <==> id in PyDict.KeySet(m)
    ensures r.Some? ==> r.value.cardId == id
    ensures r == PyDict.Get(m, id)
  {
    var r := PyDict.Get(m, id);
    if r.Some? then
      var i :| 0 <= i < |m| && m[i] == (id, r.value);
      r
    else r
  }

  /** Adding a card with a fresh id and removing it again leaves the
      manager as it was, order included. */
  lemma AddThenRemove(m: Manager, c: Card)
    requires Keyed(m) && c.cardId !in PyDict.KeySet(m)
    ensures RemoveCard(AddCard(m, c).1, c.cardId) == (true, m)
  {
    PyDict.PutFreshThenRemove(m, c.cardId, c);
  }

  /** A card added under a fresh id is found again under that id, and every
      other id finds what it found before. */
  lemma FindAfterAdd(m: Manager, c: Card, id: string)
    requires Keyed(m) && c.cardId !in PyDict.KeySet(m)
    ensures FindCard(AddCard(m, c).1, c.cardId) == Some(c)
    ensures id != c.cardId ==> FindCard(AddCard(m, c).1, id) == FindCard(m, id)
  {
  }

  /** A removed card is no longer found, and every other id finds what it
      found before. */
  lemma FindAfterRemove(m: Manager, id: string, other: string)
    requires Keyed(m)
    ensures FindCard(RemoveCard(m, id).1, id) == None
    ensures other != id ==> FindCard(RemoveCard(m, id).1, other) == FindCard(m, other)
  {
  }

  /** `validate_cards`: one (id, valid) pair per stored card, in insertion
      order. */
  method ValidateCards(m: Manager, today: Date) returns (results: seq<(string, bool)>)
    requires Keyed(m)
    ensures |results| == |m|
    ensures forall i :: 0 <= i < |m| ==> results[i] == (m[i].0, ValidateCard(m[i].1, today))
  {
    results := [];
    var i := 0;
    while i < |m|
      invariant i <= |m| && |results| == i
      invariant forall j :: 0 <= j < i ==> results[j] == (m[j].0, ValidateCard(m[j].1, today))
    {
      results := results + [(m[i].1.cardId, ValidateCard(m[i].1, today))];
      i := i + 1;
    }
  }
}
