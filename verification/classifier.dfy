/** The post classifier of the backend: a `Post` is built from a title, a
    timestamp and a comment count by a fixed sequence of parse steps that
    assign its fields, later steps overwriting the status. No step fails
    loudly: every failure degrades the status to INVALID. */
module Classifier {
  import opened Wrappers
  import opened Text

  datatype Status = REQ | PAID | UNPAID | LATE | INVALID

  /** XXX is the source's "unknown currency". */
  datatype Currency = USD | EUR | GBP | CAD | XXX

  /** The fields of a classified post, in the order of the stored row:
      (id, timestamp, status, currency, amount, isActive, title). */
  datatype PostRecord = PostRecord(
    id: string,
    timestamp: int,
    status: Status,
    currency: Currency,
    amount: int,
    isActive: Option<bool>,
    title: string)

  /** Amounts outside [MIN_AMOUNT, MAX_AMOUNT] are taken as mis-parsed. */
  const MIN_AMOUNT := 5
  const MAX_AMOUNT := 12000

  /** The comment count below which a request is taken as not yet answered
      (the platform's bot always leaves two comments). */
  const ANSWERED_COMMENTS := 3

  // ---------------------------------------------------------------------------
  // Step 1: the status tag. The tags are tried in this order; the first tag
  // that occurs anywhere in the title wins.

  const StatusTags: seq<(string, Status)> :=
    [("[REQ]", REQ), ("[PAID]", PAID), ("[UNPAID]", UNPAID), ("[LATE]", LATE)]

  function FirstTag(tags: seq<(string, Status)>, title: string): Status
  {
    if |tags| == 0 then INVALID
    else if Contains(title, tags[0].0) then tags[0].1
    else FirstTag(tags[1..], title)
  }

  function TagStatus(title: string): Status {
    FirstTag(StatusTags, title)
  }

  lemma {:induction false} FirstTagAt(tags: seq<(string, Status)>, title: string, i: nat)
    requires i < |tags|
    ensures FirstTag(tags[i..], title)
         == if Contains(title, tags[i].0) then tags[i].1 else FirstTag(tags[i + 1..], title)
  {
    assert tags[i..][1..] == tags[i + 1..];
  }

  /** `[REQ]` beats `[PAID]` beats `[UNPAID]` beats `[LATE]`, wherever each one
      stands in the title, and a title with none of them is INVALID. */
  lemma {:induction false} TagPriority(title: string)
    ensures TagStatus(title) == REQ <==> Contains(title, "[REQ]")
    ensures TagStatus(title) == PAID <==> !Contains(title, "[REQ]") && Contains(title, "[PAID]")
    ensures TagStatus(title) == UNPAID <==>
      !Contains(title, "[REQ]") && !Contains(title, "[PAID]") && Contains(title, "[UNPAID]")
    ensures TagStatus(title) == LATE <==>
      !Contains(title, "[REQ]") && !Contains(title, "[PAID]") && !Contains(title, "[UNPAID]")
      && Contains(title, "[LATE]")
    ensures TagStatus(title) == INVALID <==>
      !Contains(title, "[REQ]") && !Contains(title, "[PAID]") && !Contains(title, "[UNPAID]")
      && !Contains(title, "[LATE]")
  {
    var tags := StatusTags;
    assert tags[0..] == tags;
    FirstTagAt(tags, title, 0);
    FirstTagAt(tags, title, 1);
    FirstTagAt(tags, title, 2);
    FirstTagAt(tags, title, 3);
    assert |tags[4..]| == 0;
  }

  // ---------------------------------------------------------------------------
  // Step 2: the active flag of a request.

  /** The flag after the active-status step, given the flag before it. */
  function ActiveStep(status: Status, title: string, commentsCount: int, isActive: Option<bool>): Option<bool>
  {
    if status != REQ then isActive
    else if Contains(title, "ARRANGED") && Contains(title, "[REQ]") then Some(true)
    else if commentsCount < ANSWERED_COMMENTS then Some(false)
    else isActive
  }

  // ---------------------------------------------------------------------------
  // Step 3: the currency, as an ordered rule table. A rule fires when every
  // marker of one of its alternatives occurs in the title; the first rule
  // that fires decides, and no rule firing means XXX.

  datatype Rule = Rule(alternatives: seq<seq<string>>, currency: Currency)

  predicate ContainsAll(title: string, markers: seq<string>)
  {
    |markers| == 0 || (Contains(title, markers[0]) && ContainsAll(title, markers[1..]))
  }

  predicate Fires(title: string, alternatives: seq<seq<string>>)
  {
    |alternatives| > 0 && (ContainsAll(title, alternatives[0]) || Fires(title, alternatives[1..]))
  }

  function FirstRule(rules: seq<Rule>, title: string): Currency
  {
    if |rules| == 0 then XXX
    else if Fires(title, rules[0].alternatives) then rules[0].currency
    else FirstRule(rules[1..], title)
  }

  /** `$` means CAD when the title also names Canada, USD otherwise; the
      location markers are the last resort. */
  const CurrencyRules: seq<Rule> := [
    Rule([["USD"]], USD),
    Rule([["$", ", CA)"], ["$", "CANADA"]], CAD),
    Rule([["$"]], USD),
    Rule([["£"], ["GBP"]], GBP),
    Rule([["€"], ["EUR"]], EUR),
    Rule([["USA)"], ["US)"]], USD),
    Rule([[", CA)"], ["CANADA"]], CAD)
  ]

  function CurrencyOf(title: string): Currency {
    FirstRule(CurrencyRules, title)
  }

  predicate NamesCanada(title: string) {
    Contains(title, ", CA)") || Contains(title, "CANADA")
  }

  lemma {:induction false} FirstRuleAt(rules: seq<Rule>, title: string, i: nat)
    requires i < |rules|
    ensures FirstRule(rules[i..], title)
         == if Fires(title, rules[i].alternatives) then rules[i].currency else FirstRule(rules[i + 1..], title)
  {
    assert rules[i..][1..] == rules[i + 1..];
  }

  /** One alternative of one or two markers, or two alternatives. */
  lemma {:induction false} ContainsAllSmall(title: string, a: string, b: string)
    ensures ContainsAll(title, [a]) <==> Contains(title, a)
    ensures ContainsAll(title, [a, b]) <==> Contains(title, a) && Contains(title, b)
  {
    assert ContainsAll(title, []);
    assert [a][1..] == [];
    assert [a, b][1..] == [b];
    assert [b][1..] == [];
  }

  /** One alternative of one or two markers, or two one-marker alternatives. */
  lemma {:induction false} FiresSmall(title: string, a: string, b: string)
    ensures Fires(title, [[a]]) <==> Contains(title, a)
    ensures Fires(title, [[a], [b]]) <==> Contains(title, a) || Contains(title, b)
    ensures Fires(title, [[a, b]]) <==> Contains(title, a) && Contains(title, b)
  {
    ContainsAllSmall(title, a, b);
    ContainsAllSmall(title, b, a);
    assert !Fires(title, []);
    assert [[a]][1..] == [];
    assert [[b]][1..] == [];
    assert [[a], [b]][1..] == [[b]];
    assert [[a, b]][1..] == [];
  }

  lemma {:induction false} FiresPairOfPairs(title: string, a: string, b: string, c: string, d: string)
    ensures Fires(title, [[a, b], [c, d]]) <==> (Contains(title, a) && Contains(title, b)) || (Contains(title, c) && Contains(title, d))
  {
    assert [[a, b], [c, d]][1..] == [[c, d]];
    FiresSmall(title, a, b);
    FiresSmall(title, c, d);
  }

  /** The rule table read as a decision chain: each rule applies only when
      every rule before it failed. */
  lemma {:induction false} CurrencyPrecedence(title: string)
    ensures CurrencyOf(title) ==
      if Contains(title, "USD") then USD
      else if Contains(title, "$") then (if NamesCanada(title) then CAD else USD)
      else if Contains(title, "£") || Contains(title, "GBP") then GBP
      else if Contains(title, "€") || Contains(title, "EUR") then EUR
      else if Contains(title, "USA)") || Contains(title, "US)") then USD
      else if NamesCanada(title) then CAD
      else XXX
  {
    var rules := CurrencyRules;
    assert rules[0..] == rules;
    FiresSmall(title, "USD", "USD");
    FiresPairOfPairs(title, "$", ", CA)", "$", "CANADA");
    FiresSmall(title, "$", "$");
    FiresSmall(title, "£", "GBP");
    FiresSmall(title, "€", "EUR");
    FiresSmall(title, "USA)", "US)");
    FiresSmall(title, ", CA)", "CANADA");
    FirstRuleAt(rules, title, 0);
    FirstRuleAt(rules, title, 1);
    FirstRuleAt(rules, title, 2);
    FirstRuleAt(rules, title, 3);
    FirstRuleAt(rules, title, 4);
    FirstRuleAt(rules, title, 5);
    FirstRuleAt(rules, title, 6);
    assert |rules[7..]| == 0;
  }

  // ---------------------------------------------------------------------------
  // Step 4: the amount.

  /** A group holds a currency marker: `re.findall(r'GBP|EUR|USD|CAD|\$|€|£', group)` is not empty. */
  predicate HasCurrencyMarker(group: string) {
    || Contains(group, "GBP") || Contains(group, "EUR") || Contains(group, "USD")
    || Contains(group, "CAD") || Contains(group, "$") || Contains(group, "€") || Contains(group, "£")
  }

  /** Index of the first group that holds a currency marker. */
  function FirstMarkedGroup(groups: seq<string>): (r: Option<nat>)
    ensures r.None? ==> forall k :: 0 <= k < |groups| ==> !HasCurrencyMarker(groups[k])
    ensures r.Some? ==> r.value < |groups| && HasCurrencyMarker(groups[r.value])
    ensures r.Some? ==> forall k :: 0 <= k < r.value ==> !HasCurrencyMarker(groups[k])
  {
    if |groups| == 0 then None
    else if HasCurrencyMarker(groups[0]) then Some(0)
    else
      match FirstMarkedGroup(groups[1..])
      case None => None
      case Some(k) => Some(k + 1)
  }

  /** The digits the amount is read from: the first digit run of the first
      group (of `text` split on `sep`) that holds a currency marker, with no
      fallback when that group has none; else the first digit run of `text`. */
  function AmountDigits(text: string, sep: char): (r: Option<string>)
    ensures r.Some? ==> |r.value| > 0 && AllDigits(r.value)
  {
    var groups := Split(text, sep);
    match FirstMarkedGroup(groups)
    case Some(k) => FirstDigitRunIs(groups[k]); FirstDigitRun(groups[k])
    case None => FirstDigitRunIs(text); FirstDigitRun(text)
  }

  /** The text the amount is searched in: dates removed, then the first `,`
      and the first `.` removed (so `1,200.00` reads as `120000`). */
  function AmountText(title: string): string {
    RemoveFirst(RemoveFirst(StripDates(title), ','), '.')
  }

  /** The parsed amount, split on `)`; None when no digits were found where they were looked for. */
  function ExtractAmount(title: string): Option<int> {
    match AmountDigits(AmountText(title), ')')
    case Some(d) => Some(DecimalValue(d))
    case None => None
  }

  lemma {:induction false} FirstMarkedGroupIs(groups: seq<string>, i: nat)
    requires i < |groups| && HasCurrencyMarker(groups[i])
    requires forall k :: 0 <= k < i ==> !HasCurrencyMarker(groups[k])
    ensures FirstMarkedGroup(groups) == Some(i)
  {
  }

  // ---------------------------------------------------------------------------
  // The whole classification

  /** The record before any parse step: the stored title, placeholders elsewhere. */
  function Initial(id: string, title: string, timestamp: int): PostRecord {
    PostRecord(id, timestamp, INVALID, XXX, 0, None, Upper(title))
  }

  /** The type step: the status becomes the title's tag. */
  function AfterType(r: PostRecord): PostRecord {
    r.(status := TagStatus(r.title))
  }

  /** The active-status step. */
  function AfterActive(r: PostRecord, commentsCount: int): PostRecord {
    r.(isActive := ActiveStep(r.status, r.title, commentsCount, r.isActive))
  }

  /** The currency step: an unknown currency also invalidates the status. */
  function AfterCurrency(r: PostRecord): PostRecord {
    var c := CurrencyOf(r.title);
    r.(currency := c, status := if c == XXX then INVALID else r.status)
  }

  /** The amount step: no digits leaves the amount alone and invalidates the status. */
  function AfterAmount(r: PostRecord): PostRecord {
    match ExtractAmount(r.title)
    case Some(v) => r.(amount := v)
    case None => r.(status := INVALID)
  }

  /** The range check that closes the constructor. */
  function AfterRange(r: PostRecord): PostRecord {
    if r.amount < MIN_AMOUNT || r.amount > MAX_AMOUNT then r.(status := INVALID) else r
  }

  /** The constructor's steps, in the order it runs them: the three parse
      steps on the title and the comment count, the amount, then the range
      check. `commentsCount` is the constructor's argument. */
  function Steps(commentsCount: int): seq<PostRecord -> PostRecord> {
    [AfterType, r => AfterActive(r, commentsCount), AfterCurrency, AfterAmount, AfterRange]
  }

  /** The record after running `steps` in order from `r`. */
  function Run(steps: seq<PostRecord -> PostRecord>, r: PostRecord): PostRecord
    decreases |steps|
  {
    if |steps| == 0 then r else Run(steps[1..], steps[0](r))
  }

  /** Five steps, written out. */
  lemma {:induction false} RunFive(steps: seq<PostRecord -> PostRecord>, r: PostRecord)
    requires |steps| == 5
    ensures Run(steps, r) == steps[4](steps[3](steps[2](steps[1](steps[0](r)))))
  {
    var r1 := steps[0](r);
    var r2 := steps[1](r1);
    var r3 := steps[2](r2);
    var r4 := steps[3](r3);
    var r5 := steps[4](r4);
    assert Run(steps[5..], r5) == r5;
    assert steps[4..][1..] == steps[5..];
    assert Run(steps[4..], r4) == r5;
    assert steps[3..][1..] == steps[4..];
    assert Run(steps[3..], r3) == r5;
    assert steps[2..][1..] == steps[3..];
    assert Run(steps[2..], r2) == r5;
    assert steps[1..][1..] == steps[2..];
    assert Run(steps[1..], r1) == r5;
  }

  /** The constructor's steps, composed. */
  lemma {:induction false} RunSteps(r: PostRecord, commentsCount: int)
    ensures Run(Steps(commentsCount), r)
         == AfterRange(AfterAmount(AfterCurrency(AfterActive(AfterType(r), commentsCount))))
  {
    RunFive(Steps(commentsCount), r);
  }

  /** The record the constructor builds; deterministic in its four inputs. */
  function Classify(id: string, title: string, timestamp: int, commentsCount: int): (p: PostRecord)
    ensures p.id == id && p.timestamp == timestamp && p.title == Upper(title)
    ensures p.status != INVALID ==> MIN_AMOUNT <= p.amount <= MAX_AMOUNT
  {
    RunSteps(Initial(id, title, timestamp), commentsCount);
    Run(Steps(commentsCount), Initial(id, title, timestamp))
  }

  /** What the classification guarantees about every record it builds. */
  lemma {:induction false} ClassifyProperties(id: string, title: string, timestamp: int, commentsCount: int)
    ensures var p := Classify(id, title, timestamp, commentsCount);
      // a surviving status is the tag's, and only a well-formed post survives
      && (p.status != INVALID ==> p.status == TagStatus(p.title))
      && (p.status == INVALID <==>
          || TagStatus(p.title) == INVALID || CurrencyOf(p.title) == XXX
          || ExtractAmount(p.title).None? || p.amount < MIN_AMOUNT || p.amount > MAX_AMOUNT)
      // the currency is set once and no later step changes it
      && p.currency == CurrencyOf(p.title)
      && (p.currency == XXX ==> p.status == INVALID)
      // the amount keeps its default 0 when no digits were found
      && (ExtractAmount(p.title).None? ==> p.amount == 0 && p.status == INVALID)
      && (ExtractAmount(p.title).Some? ==> p.amount == ExtractAmount(p.title).value)
      // the active flag is set only for requests, and a later invalidation leaves it alone
      && (TagStatus(p.title) != REQ ==> p.isActive == None)
      && (TagStatus(p.title) == REQ && Contains(p.title, "ARRANGED") ==> p.isActive == Some(true))
      && (TagStatus(p.title) == REQ && !Contains(p.title, "ARRANGED") && commentsCount < ANSWERED_COMMENTS ==>
          p.isActive == Some(false))
      && (TagStatus(p.title) == REQ && !Contains(p.title, "ARRANGED") && commentsCount >= ANSWERED_COMMENTS ==>
          p.isActive == None)
  {
    RunSteps(Initial(id, title, timestamp), commentsCount);
    TagPriority(Upper(title));
  }

  /** Classifying the stored (upper-cased) title again gives the same record. */
  lemma {:induction false} ClassifyStoredTitle(id: string, title: string, timestamp: int, commentsCount: int)
    ensures Classify(id, Classify(id, title, timestamp, commentsCount).title, timestamp, commentsCount)
         == Classify(id, title, timestamp, commentsCount)
  {
    UpperIdempotent(title);
  }

  /** The scan over the groups that stops at the first one holding a currency marker. */
  method FindMarkedGroup(groups: seq<string>) returns (r: Option<nat>)
    ensures r == FirstMarkedGroup(groups)
  {
    var i := 0;
    while i < |groups|
      invariant 0 <= i <= |groups|
      invariant forall k :: 0 <= k < i ==> !HasCurrencyMarker(groups[k])
    {
      if HasCurrencyMarker(groups[i]) {
        FirstMarkedGroupIs(groups, i);
        return Some(i);
      }
      i := i + 1;
    }
    return None;
  }

  // ---------------------------------------------------------------------------
  // The post object and its parse steps

  class Post {
    const id: string
    const title: string
    const timestamp: int
    var status: Status
    var currency: Currency
    var amount: int
    var isActive: Option<bool>

    function Record(): PostRecord
      reads this
    {
      PostRecord(id, timestamp, status, currency, amount, isActive, title)
    }

    /** Runs the parse steps in the source's order, then the range check. The
        status and currency start as placeholders that the steps overwrite. */
    constructor (id: string, title: string, timestamp: int, commentsCount: int)
      ensures Record() == Classify(id, title, timestamp, commentsCount)
    {
      this.id := id;
      this.title := Upper(title);
      this.timestamp := timestamp;
      status := INVALID;
      currency := XXX;
      amount := 0;
      isActive := None;
      new;
      RunSteps(Record(), commentsCount);
      ParsePostType();
      ParseIsActive(commentsCount);
      ParseCurrencyType();
      ParseCurrencyAmount();
      if amount < MIN_AMOUNT || amount > MAX_AMOUNT {
        status := INVALID;
      }
    }

    method ParsePostType()
      modifies this`status
      ensures Record() == AfterType(old(Record()))
    {
      TagPriority(title);
      if Contains(title, "[REQ]") {
        status := REQ;
      } else if Contains(title, "[PAID]") {
        status := PAID;
      } else if Contains(title, "[UNPAID]") {
        status := UNPAID;
      } else if Contains(title, "[LATE]") {
        status := LATE;
      } else {
        status := INVALID;
      }
    }

    method ParseIsActive(commentCount: int)
      modifies this`isActive
      ensures Record() == AfterActive(old(Record()), commentCount)
    {
      if status != REQ {
        return;
      }
      if Contains(title, "ARRANGED") && Contains(title, "[REQ]") {
        isActive := Some(true);
      } else if commentCount < ANSWERED_COMMENTS {
        isActive := Some(false);
      }
    }

    method ParseCurrencyType()
      modifies this`currency, this`status
      ensures Record() == AfterCurrency(old(Record()))
    {
      CurrencyPrecedence(title);
      if Contains(title, "USD") {
        currency := USD;
      } else if Contains(title, "$") {
        if Contains(title, ", CA)") || Contains(title, "CANADA") {
          currency := CAD;
        } else {
          currency := USD;
        }
      } else if Contains(title, "£") || Contains(title, "GBP") {
        currency := GBP;
      } else if Contains(title, "€") || Contains(title, "EUR") {
        currency := EUR;
      } else if Contains(title, "USA)") || Contains(title, "US)") {
        currency := USD;
      } else if Contains(title, ", CA)") || Contains(title, "CANADA") {
        currency := CAD;
      } else {
        currency := XXX;
        status := INVALID;
      }
    }

    /** The amount step: the text is split on `)`; the first group holding a
        currency marker is read, or the whole text when no group holds one. */
    method ParseCurrencyAmount()
      modifies this`amount, this`status
      ensures Record() == AfterAmount(old(Record()))
    {
      var text := AmountText(title);
      var groups := Split(text, ')');
      var marked := FindMarkedGroup(groups);
      var digits := if marked.Some? then FirstDigitRun(groups[marked.value]) else FirstDigitRun(text);
      assert digits == AmountDigits(text, ')');
      if digits.Some? {
        amount := DecimalValue(digits.value);
      } else {
        status := INVALID;
      }
    }
  }

  /** The rows a list of posts is stored as, in list order. */
  function Records(ps: seq<Post>): (rows: seq<PostRecord>)
    reads ps
    ensures |rows| == |ps|
    ensures forall i :: 0 <= i < |ps| ==> rows[i] == ps[i].Record()
    decreases |ps|
  {
    if |ps| == 0 then [] else Records(ps[..|ps| - 1]) + [ps[|ps| - 1].Record()]
  }

  lemma {:induction false} RecordsSnoc(ps: seq<Post>, p: Post)
    ensures Records(ps + [p]) == Records(ps) + [p.Record()]
  {
    assert (ps + [p])[..|ps|] == ps;
  }
}
