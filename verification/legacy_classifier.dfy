/** The older classifier (`src/models.py`): no timestamp, no active flag and
    no amount range check; the currency chain lacks the `US)` marker; the
    amount is searched in groups split on `(` and is kept as the digit string
    itself; and the unknown-currency branch assigns a stray attribute
    `Status` (capital S) instead of the post's `status`. */
module LegacyClassifier {
  import opened Wrappers
  import opened Text
  import opened Classifier

  /** The amount attribute: the class default `0.0` until a digit string is
      assigned over it. */
  datatype LegacyAmount = Unset | DigitString(digits: string)

  /** `strayStatus` is the attribute the unknown-currency branch creates; it
      is never read. */
  datatype LegacyRecord = LegacyRecord(
    id: string,
    status: Status,
    currency: Currency,
    amount: LegacyAmount,
    title: string,
    strayStatus: Option<Status>)

  /** The same chain as the backend's, except that the location rule knows only `USA)`. */
  const LegacyCurrencyRules: seq<Rule> := [
    Rule([["USD"]], USD),
    Rule([["$", ", CA)"], ["$", "CANADA"]], CAD),
    Rule([["$"]], USD),
    Rule([["£"], ["GBP"]], GBP),
    Rule([["€"], ["EUR"]], EUR),
    Rule([["USA)"]], USD),
    Rule([[", CA)"], ["CANADA"]], CAD)
  ]

  function LegacyCurrencyOf(title: string): Currency {
    FirstRule(LegacyCurrencyRules, title)
  }

  lemma {:induction false} LegacyCurrencyPrecedence(title: string)
    ensures LegacyCurrencyOf(title) ==
      if Contains(title, "USD") then USD
      else if Contains(title, "$") then (if NamesCanada(title) then CAD else USD)
      else if Contains(title, "£") || Contains(title, "GBP") then GBP
      else if Contains(title, "€") || Contains(title, "EUR") then EUR
      else if Contains(title, "USA)") then USD
      else if NamesCanada(title) then CAD
      else XXX
  {
    var rules := LegacyCurrencyRules;
    assert rules[0..] == rules;
    FiresSmall(title, "USD", "USD");
    FiresPairOfPairs(title, "$", ", CA)", "$", "CANADA");
    FiresSmall(title, "$", "$");
    FiresSmall(title, "£", "GBP");
    FiresSmall(title, "€", "EUR");
    FiresSmall(title, "USA)", "USA)");
    FiresSmall(title, ", CA)", "CANADA");
    FirstRuleAt(rules, title, 0);
    FirstRuleAt(rules, title, 1);
    FirstRuleAt(rules, title, 2);
    FirstRuleAt(rules, title, 3);
    FirstRuleAt(rules, title, 4);
    FirstRuleAt(rules, title, 5);
    FirstRuleAt(rules, title, 6);
    assert |rules[7..]| == 0;
  }

  /** The two chains disagree exactly on titles whose only currency hint is
      `US)`: the backend reads USD, the older code falls through to the
      Canada rule or to XXX. */
  lemma {:induction false} CurrencyChainsDiffer(title: string)
    ensures LegacyCurrencyOf(title) != CurrencyOf(title) <==>
      && !Contains(title, "USD") && !Contains(title, "$") && !Contains(title, "£") && !Contains(title, "GBP")
      && !Contains(title, "€") && !Contains(title, "EUR") && !Contains(title, "USA)") && Contains(title, "US)")
    ensures LegacyCurrencyOf(title) != CurrencyOf(title) ==>
      CurrencyOf(title) == USD && LegacyCurrencyOf(title) == (if NamesCanada(title) then CAD else XXX)
  {
    CurrencyPrecedence(title);
    LegacyCurrencyPrecedence(title);
  }

  /** The older amount search: dates removed, no separator removed, groups split on `(`. */
  function LegacyAmountDigits(title: string): Option<string> {
    AmountDigits(StripDates(title), '(')
  }

  /** The record the older constructor builds. */
  function LegacyClassify(id: string, title: string): (p: LegacyRecord)
    ensures p.id == id && p.title == Upper(title)
  {
    var t := Upper(title);
    var currency := LegacyCurrencyOf(t);
    var digits := LegacyAmountDigits(t);
    LegacyRecord(
      id,
      if digits.None? then INVALID else TagStatus(t),
      currency,
      if digits.Some? then DigitString(digits.value) else Unset,
      t,
      if currency == XXX then Some(INVALID) else None)
  }

  /** What the older classifier guarantees: the status is the tag's unless no
      amount digits were found, and an unknown currency never changes the
      status (it only sets the stray attribute). */
  lemma {:induction false} LegacyClassifyProperties(id: string, title: string)
    ensures var p := LegacyClassify(id, title);
      && (p.status == INVALID <==> TagStatus(p.title) == INVALID || LegacyAmountDigits(p.title).None?)
      && (p.status != INVALID ==> p.status == TagStatus(p.title))
      && (p.amount.DigitString? ==> |p.amount.digits| > 0 && AllDigits(p.amount.digits))
      && (p.currency == XXX <==> p.strayStatus == Some(INVALID))
      && (p.strayStatus.Some? ==> p.strayStatus == Some(INVALID))
  {
    TagPriority(Upper(title));
  }

  /** Characters survive date removal only if they were there before. */
  lemma {:induction false} StripDatesKeepsOnly(s: string, c: char)
    requires c !in s
    ensures c !in StripDates(s)
    decreases |s|
  {
    if |s| > 0 {
      match DateMatch(s)
      case Some(n) => StripDatesKeepsOnly(s[n..], c);
      case None => StripDatesKeepsOnly(s[1..], c);
    }
  }

  /** On a title without `,`, `.`, `(` and `)`, both classifiers read the same digits. */
  lemma {:induction false} AmountsAgreeWithoutPunctuation(title: string)
    requires ',' !in title && '.' !in title && '(' !in title && ')' !in title
    ensures LegacyAmountDigits(title) == AmountDigits(AmountText(title), ')')
  {
    var s := StripDates(title);
    StripDatesKeepsOnly(title, ',');
    StripDatesKeepsOnly(title, '.');
    StripDatesKeepsOnly(title, '(');
    StripDatesKeepsOnly(title, ')');
    assert RemoveFirst(s, ',') == s;
    assert AmountText(title) == s;
    SplitWithoutSeparator(s, '(');
    SplitWithoutSeparator(s, ')');
  }

  /** The title of the example below: a request with a number and no currency hint. */
  const UnmarkedRequest := "[REQ] 7"

  lemma {:induction false} UnmarkedRequestTag()
    ensures Upper(UnmarkedRequest) == UnmarkedRequest
    ensures TagStatus(UnmarkedRequest) == REQ
    ensures '(' !in UnmarkedRequest && |UnmarkedRequest| == 7 && IsDigit(UnmarkedRequest[6])
  {
    var t := UnmarkedRequest;
    assert Contains(t, "[REQ]") by { assert MatchesAt(t, "[REQ]", 0, 0); }
    TagPriority(t);
  }

  lemma {:induction false} UnmarkedRequestNoSymbol()
    ensures !Contains(UnmarkedRequest, "$") && !Contains(UnmarkedRequest, "£") && !Contains(UnmarkedRequest, "€")
  {
  }

  lemma {:induction false} UnmarkedRequestNoCode()
    ensures !Contains(UnmarkedRequest, "USD") && !Contains(UnmarkedRequest, "CAD")
    ensures !Contains(UnmarkedRequest, "GBP") && !Contains(UnmarkedRequest, "EUR")
  {
  }

  lemma {:induction false} UnmarkedRequestNoLocation()
    ensures !Contains(UnmarkedRequest, "USA)") && !Contains(UnmarkedRequest, "US)")
    ensures !Contains(UnmarkedRequest, ", CA)") && !Contains(UnmarkedRequest, "CANADA")
  {
  }

  lemma {:induction false} UnmarkedRequestMarkers(t: string)
    requires t == UnmarkedRequest
    ensures CurrencyOf(t) == XXX && LegacyCurrencyOf(t) == XXX
    ensures !HasCurrencyMarker(t)
  {
    UnmarkedRequestNoSymbol();
    UnmarkedRequestNoCode();
    UnmarkedRequestNoLocation();
    CurrencyPrecedence(t);
    LegacyCurrencyPrecedence(t);
  }

  lemma {:induction false} UnmarkedRequestHasNoDate()
    ensures StripDates(UnmarkedRequest) == UnmarkedRequest
  {
    var t := UnmarkedRequest;
    assert StripDates(t[6..]) == t[6..];
    StripDatesKeepsNonDigit(t[5..]);
    assert t[5..] == [t[5]] + t[6..];
    assert StripDates(t[5..]) == t[5..];
    StripDatesKeepsNonDigit(t[4..]);
    assert t[4..] == [t[4]] + t[5..];
    assert StripDates(t[4..]) == t[4..];
    StripDatesKeepsNonDigit(t[3..]);
    assert t[3..] == [t[3]] + t[4..];
    assert StripDates(t[3..]) == t[3..];
    StripDatesKeepsNonDigit(t[2..]);
    assert t[2..] == [t[2]] + t[3..];
    assert StripDates(t[2..]) == t[2..];
    StripDatesKeepsNonDigit(t[1..]);
    assert t[1..] == [t[1]] + t[2..];
    assert StripDates(t[1..]) == t[1..];
    StripDatesKeepsNonDigit(t);
    assert t == [t[0]] + t[1..];
  }

  /** A request with a number and no currency hint keeps its REQ status in the
      older code, while the backend invalidates it. */
  lemma {:induction false} UnknownCurrencyStaysValid(id: string, title: string, timestamp: int, commentsCount: int)
    requires title == UnmarkedRequest
    ensures LegacyClassify(id, title).currency == XXX
    ensures LegacyClassify(id, title).status == REQ
    ensures Classify(id, title, timestamp, commentsCount).status == INVALID
  {
    UnmarkedRequestTag();
    UnmarkedRequestMarkers(title);
    UnmarkedRequestHasNoDate();
    ClassifyProperties(id, title, timestamp, commentsCount);
    SplitWithoutSeparator(title, '(');
  }

  class LegacyPost {
    const id: string
    const title: string
    var status: Status
    var currency: Currency
    var amount: LegacyAmount
    var strayStatus: Option<Status>

    function Record(): LegacyRecord
      reads this
    {
      LegacyRecord(id, status, currency, amount, title, strayStatus)
    }

    constructor (id: string, title: string)
      ensures Record() == LegacyClassify(id, title)
    {
      this.id := id;
      this.title := Upper(title);
      status := INVALID;
      currency := XXX;
      amount := Unset;
      strayStatus := None;
      new;
      ParsePostType();
      ParseCurrencyType();
      ParseCurrencyAmount();
    }

    method ParsePostType()
      modifies this`status
      ensures status == TagStatus(title)
    {
      TagPriority(title);
      if Contains(title, "[REQ]") {
        status := REQ;
      } else if Contains(title, "[PAID]") {
        status := PAID;
      } else if Contains(title, "[UNPAID]") {
        status := UNPAID;
      } else if Contains(title, "[LATE]") {
        status := LATE;
      } else {
        status := INVALID;
      }
    }

    /** The unknown-currency branch writes the stray attribute, not `status`. */
    method ParseCurrencyType()
      modifies this`currency, this`strayStatus
      ensures currency == LegacyCurrencyOf(title)
      ensures strayStatus == if currency == XXX then Some(INVALID) else old(strayStatus)
    {
      LegacyCurrencyPrecedence(title);
      if Contains(title, "USD") {
        currency := USD;
      } else if Contains(title, "$") {
        if Contains(title, ", CA)") || Contains(title, "CANADA") {
          currency := CAD;
        } else {
          currency := USD;
        }
      } else if Contains(title, "£") || Contains(title, "GBP") {
        currency := GBP;
      } else if Contains(title, "€") || Contains(title, "EUR") {
        currency := EUR;
      } else if Contains(title, "USA)") {
        currency := USD;
      } else if Contains(title, ", CA)") || Contains(title, "CANADA") {
        currency := CAD;
      } else {
        currency := XXX;
        strayStatus := Some(INVALID);
      }
    }

    method ParseCurrencyAmount()
      modifies this`amount, this`status
      ensures LegacyAmountDigits(title).Some? ==>
        amount == DigitString(LegacyAmountDigits(title).value) && status == old(status)
      ensures LegacyAmountDigits(title).None? ==> amount == old(amount) && status == INVALID
    {
      var text := StripDates(title);
      var groups := Split(text, '(');
      var marked := FindMarkedGroup(groups);
      var digits := if marked.Some? then FirstDigitRun(groups[marked.value]) else FirstDigitRun(text);
      if digits.Some? {
        amount := DigitString(digits.value);
      } else {
        status := INVALID;
      }
    }
  }
}
