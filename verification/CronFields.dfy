/**
 The cron field grammar: lists of stars, numbers and ranges, each with an optional step.
 Expressions are ASCII text.
 */
module CronFields {
  import opened Text
  import opened CronRuns

  datatype Error = FieldCount | BadStep | BadRange | Unsupported | OutOfRange | EmptyField

  datatype Result<T> = Ok(value: T) | Err(error: Error)

  /** range(start, end + 1, step). */
  datatype Span = Span(start: int, end: int, step: int) {
    function Nth(k: nat): int { start + k * step }

    ghost predicate Has(v: int) { v <= end && exists k: nat :: Nth(k) == v }
  }

  datatype Bounds = Bounds(start: int, end: int)

  /** One comma-separated item of a field. */
  function ItemSpan(item: string, minimum: int, maximum: int): (r: Result<Span>)
    ensures r.Ok? ==> r.value.step >= 1 && minimum <= r.value.start <= r.value.end <= maximum
  {
    var p := Partition(item, '/');
    if p.found && (!IsDigits(p.after) || DigitsValue(p.after) < 1) then Err(BadStep)
    else
      var step := if p.found then DigitsValue(p.after) else 1;
      var bounds: Result<Bounds> :=
        if p.before == "*" then Ok(Bounds(minimum, maximum))
        else if '-' in p.before then
          var q := Partition(p.before, '-');
          if !IsDigits(q.before) || !IsDigits(q.after) then Err(BadRange)
          else Ok(Bounds(DigitsValue(q.before), DigitsValue(q.after)))
        else if IsDigits(p.before) then Ok(Bounds(DigitsValue(p.before), DigitsValue(p.before)))
        else Err(Unsupported);
      match bounds
      case Err(e) => Err(e)
      case Ok(Bounds(start, end)) =>
        if start < minimum || end > maximum || start > end then Err(OutOfRange) else Ok(Span(start, end, step))
  }

  function Normal(v: int, normalizeWeekday: bool): int {
    if normalizeWeekday && v == 7 then 0 else v
  }

  function SpansOf(items: seq<string>, minimum: int, maximum: int): (r: seq<Result<Span>>)
    ensures |r| == |items| && forall i :: 0 <= i < |items| ==> r[i] == ItemSpan(items[i], minimum, maximum)
  {
    if items == [] then [] else [ItemSpan(items[0], minimum, maximum)] + SpansOf(items[1..], minimum, maximum)
  }

  /** The parsed items of a field. */
  function FieldSpans(field: string, minimum: int, maximum: int): seq<Result<Span>> {
    SpansOf(Split(field, ','), minimum, maximum)
  }

  /** The union of the items' values, or the error of the first bad item. */
  ghost predicate Denotes(spans: seq<Result<Span>>, normalizeWeekday: bool, r: Result<set<int>>) {
    if forall i :: 0 <= i < |spans| ==> spans[i].Ok? then
      r.Ok? && forall v :: v in r.value <==> exists i, u ::
        0 <= i < |spans| && spans[i].value.Has(u) && v == Normal(u, normalizeWeekday)
    else
      r.Err? && exists i :: (
        && 0 <= i < |spans| && spans[i] == Err(r.error)
        && forall j :: 0 <= j < i ==> spans[j].Ok?)
  }

  ghost predicate Within(spans: seq<Result<Span>>, minimum: int, maximum: int) {
    forall i :: 0 <= i < |spans| && spans[i].Ok? ==>
      spans[i].value.step >= 1 && minimum <= spans[i].value.start <= spans[i].value.end <= maximum
  }

  method AddSpan(span: Span, normalizeWeekday: bool, values: set<int>) returns (all: set<int>)
    requires span.step >= 1
    ensures forall v :: v in all <==> v in values || exists u :: span.Has(u) && v == Normal(u, normalizeWeekday)
  {
    all := values;
    var value := span.start;
    ghost var k: nat := 0;
    while value <= span.end
      invariant value == span.Nth(k)
      invariant forall j: nat :: j < k ==> span.Nth(j) <= span.end
      invariant forall v :: v in all <==> v in values || exists j: nat :: j < k && v == Normal(span.Nth(j), normalizeWeekday)
      decreases span.end - value
    {
      all := all + {Normal(value, normalizeWeekday)};
      value := value + span.step;
      k := k + 1;
    }
    forall v | v in all && v !in values ensures exists u :: span.Has(u) && v == Normal(u, normalizeWeekday) {
      var j: nat :| j < k && v == Normal(span.Nth(j), normalizeWeekday);
      assert span.Has(span.Nth(j));
    }
    forall u | span.Has(u) ensures Normal(u, normalizeWeekday) in all {
      var j: nat :| span.Nth(j) == u;
      if j >= k { NthMonotone(span, k, j); }
    }
  }

  lemma NthMonotone(span: Span, j: nat, k: nat)
    requires span.step >= 1 && j <= k
    ensures span.Nth(j) <= span.Nth(k)
  {
    assert k * span.step == j * span.step + (k - j) * span.step;
  }

  /** The field's values and errors, given its parsed items. */
  method Collect(spans: seq<Result<Span>>, normalizeWeekday: bool) returns (r: Result<set<int>>)
    requires |spans| >= 1
    requires forall i :: 0 <= i < |spans| && spans[i].Ok? ==> spans[i].value.step >= 1 && spans[i].value.start <= spans[i].value.end
    ensures Denotes(spans, normalizeWeekday, r)
  {
    var values: set<int> := {};
    for i := 0 to |spans|
      invariant forall j :: 0 <= j < i ==> spans[j].Ok?
      invariant forall v :: v in values <==> exists j, u ::
        0 <= j < i && spans[j].value.Has(u) && v == Normal(u, normalizeWeekday)
      invariant i > 0 ==> values != {}
    {
      if spans[i].Err? { return Err(spans[i].error); }
      var span := spans[i].value;
      assert span.Nth(0) == span.start && span.Has(span.start);
      var all := AddSpan(span, normalizeWeekday, values);
      assert Normal(span.start, normalizeWeekday) in all;
      values := all;
    }
    if values == {} { return Err(EmptyField); }
    return Ok(values);
  }

  /** What a successfully parsed field holds: at least one value, all within the field's range. */
  lemma CollectedInRange(spans: seq<Result<Span>>, minimum: int, maximum: int, normalizeWeekday: bool, r: Result<set<int>>)
    requires |spans| >= 1 && Within(spans, minimum, maximum) && Denotes(spans, normalizeWeekday, r) && r.Ok?
    requires normalizeWeekday ==> minimum == 0 && maximum == 7
    ensures exists v :: v in r.value
    ensures forall v :: v in r.value ==> minimum <= v <= (if normalizeWeekday then 6 else maximum)
  {
    var first := spans[0].value;
    assert first.Nth(0) == first.start && first.Has(first.start);
    assert Normal(first.start, normalizeWeekday) in r.value;
    forall v | v in r.value ensures minimum <= v <= (if normalizeWeekday then 6 else maximum) {
      var i, u :| 0 <= i < |spans| && spans[i].value.Has(u) && v == Normal(u, normalizeWeekday);
      SpanAbove(spans[i].value, u);
    }
  }

  lemma StarSpans(minimum: int, maximum: int)
    requires minimum <= maximum
    ensures FieldSpans("*", minimum, maximum) == [Ok(Span(minimum, maximum, 1))]
  {
    PartitionPlain("*", ',');
    PartitionPlain("*", '/');
    assert Split("*", ',') == ["*"];
    assert ItemSpan("*", minimum, maximum) == Ok(Span(minimum, maximum, 1));
  }

  lemma StarIsEverything(minimum: int, maximum: int, normalizeWeekday: bool, r: Result<set<int>>)
    requires minimum <= maximum && Denotes([Ok(Span(minimum, maximum, 1))], normalizeWeekday, r)
    ensures r.Ok? && forall v :: minimum <= v <= maximum ==> Normal(v, normalizeWeekday) in r.value
  {
    var spans: seq<Result<Span>> := [Ok(Span(minimum, maximum, 1))];
    forall v | minimum <= v <= maximum ensures Normal(v, normalizeWeekday) in r.value {
      assert spans[0].value.Nth(v - minimum) == v && spans[0].value.Has(v);
    }
  }

  method ParseSpans(spans: seq<Result<Span>>, minimum: int, maximum: int, normalizeWeekday: bool) returns (r: Result<set<int>>)
    requires |spans| >= 1 && Within(spans, minimum, maximum)
    requires minimum <= maximum && (normalizeWeekday ==> minimum == 0 && maximum == 7)
    ensures Denotes(spans, normalizeWeekday, r)
    ensures r.Ok? ==> exists v :: v in r.value
    ensures r.Ok? ==> forall v :: v in r.value ==> minimum <= v <= (if normalizeWeekday then 6 else maximum)
    ensures spans == [Ok(Span(minimum, maximum, 1))] ==>
      r.Ok? && forall v :: minimum <= v <= maximum ==> Normal(v, normalizeWeekday) in r.value
  {
    r := Collect(spans, normalizeWeekday);
    if r.Ok? { CollectedInRange(spans, minimum, maximum, normalizeWeekday, r); }
    if spans == [Ok(Span(minimum, maximum, 1))] { StarIsEverything(minimum, maximum, normalizeWeekday, r); }
  }

  method ParseCronField(field: string, minimum: int, maximum: int, normalizeWeekday: bool) returns (r: Result<set<int>>)
    requires minimum <= maximum && (normalizeWeekday ==> minimum == 0 && maximum == 7)
    ensures Denotes(FieldSpans(field, minimum, maximum), normalizeWeekday, r)
  {
    r := ParseSpans(FieldSpans(field, minimum, maximum), minimum, maximum, normalizeWeekday);
  }

  lemma SpanAbove(span: Span, u: int)
    requires span.step >= 1 && span.Has(u)
    ensures span.start <= u <= span.end
  {
    var k: nat :| span.Nth(k) == u;
    NthMonotone(span, 0, k);
  }

  /** No item of the field fails. */
  ghost predicate Fine(spans: seq<Result<Span>>) { forall i :: 0 <= i < |spans| ==> spans[i].Ok? }

  /** The items of the five fields of an expression: minute, hour, day, month, weekday. */
  datatype Items = Items(
    minutes: seq<Result<Span>>, hours: seq<Result<Span>>, days: seq<Result<Span>>, months: seq<Result<Span>>,
    weekdays: seq<Result<Span>>)
  {
    ghost predicate Fits() {
      && |minutes| >= 1 && Within(minutes, 0, 59)
      && |hours| >= 1 && Within(hours, 0, 23)
      && |days| >= 1 && Within(days, 1, 31)
      && |months| >= 1 && Within(months, 1, 12)
      && |weekdays| >= 1 && Within(weekdays, 0, 7)
    }

    /** The first item that fails, field by field, fails with this error. */
    ghost predicate Faulty(error: Error) {
      if !Fine(minutes) then Denotes(minutes, false, Err(error))
      else if !Fine(hours) then Denotes(hours, false, Err(error))
      else if !Fine(days) then Denotes(days, false, Err(error))
      else if !Fine(months) then Denotes(months, false, Err(error))
      else Denotes(weekdays, true, Err(error))
    }

    /** The cron has exactly the values the items denote. */
    ghost predicate Describe(cron: Cron) {
      && Denotes(minutes, false, Ok(cron.minutes))
      && Denotes(hours, false, Ok(cron.hours))
      && Denotes(days, false, Ok(cron.days))
      && Denotes(months, false, Ok(cron.months))
      && Denotes(weekdays, true, Ok(cron.weekdays))
    }
  }

  function ItemsOf(fields: seq<string>): (items: Items)
    requires |fields| == 5
    ensures items.Fits()
  {
    Items(
      FieldSpans(fields[0], 0, 59), FieldSpans(fields[1], 0, 23), FieldSpans(fields[2], 1, 31),
      FieldSpans(fields[3], 1, 12), FieldSpans(fields[4], 0, 7))
  }

  method ParseItems(items: Items, dayWildcard: bool, weekdayWildcard: bool) returns (r: Result<Cron>)
    requires items.Fits()
    requires dayWildcard ==> items.days == [Ok(Span(1, 31, 1))]
    requires weekdayWildcard ==> items.weekdays == [Ok(Span(0, 7, 1))]
    ensures r.Ok? ==> r.value.Parsed() && items.Describe(r.value)
    ensures r.Ok? ==> r.value.dayWildcard == dayWildcard && r.value.weekdayWildcard == weekdayWildcard
    ensures r.Err? ==> items.Faulty(r.error)
  {
    var minutes := ParseSpans(items.minutes, 0, 59, false);
    if minutes.Err? { return Err(minutes.error); }
    var hours := ParseSpans(items.hours, 0, 23, false);
    if hours.Err? { return Err(hours.error); }
    var days := ParseSpans(items.days, 1, 31, false);
    if days.Err? { return Err(days.error); }
    var months := ParseSpans(items.months, 1, 12, false);
    if months.Err? { return Err(months.error); }
    var weekdays := ParseSpans(items.weekdays, 0, 7, true);
    if weekdays.Err? { return Err(weekdays.error); }
    if dayWildcard {
      forall v | 1 <= v <= 31 ensures v in days.value { assert Normal(v, false) == v; }
    }
    if weekdayWildcard {
      forall v | 0 <= v <= 6 ensures v in weekdays.value { assert Normal(v, true) == v; }
    }
    return Ok(Cron(minutes.value, hours.value, days.value, months.value, weekdays.value, dayWildcard, weekdayWildcard));
  }

  /** A whole expression. */
  method ParseCron(expression: string) returns (r: Result<Cron>)
    ensures var fields := Words(expression);
      && (|fields| != 5 ==> r == Err(FieldCount))
      && (|fields| == 5 && r.Ok? ==>
            && r.value.Parsed() && ItemsOf(fields).Describe(r.value)
            && r.value.dayWildcard == (fields[2] == "*") && r.value.weekdayWildcard == (fields[4] == "*"))
      && (|fields| == 5 && r.Err? ==> ItemsOf(fields).Faulty(r.error))
  {
    var fields := Words(expression);
    if |fields| != 5 { return Err(FieldCount); }
    StarSpans(1, 31);
    StarSpans(0, 7);
    r := ParseItems(ItemsOf(fields), fields[2] == "*", fields[4] == "*");
  }

  // ---------------------------------------------------------------- printing fields and reading them back

  datatype Base = Star | One(n: nat) | Between(a: nat, b: nat)

  datatype Item = Item(base: Base, step: nat) {
    /** The text; a step of one is left out. */
    function Render(): string {
      var base :=
        match base
        case Star => "*"
        case One(n) => Decimal(n)
        case Between(a, b) => Decimal(a) + ['-'] + Decimal(b);
      if step == 1 then base else base + ['/'] + Decimal(step)
    }

    function Meaning(minimum: int, maximum: int): Span {
      match base
      case Star => Span(minimum, maximum, step)
      case One(n) => Span(n, n, step)
      case Between(a, b) => Span(a, b, step)
    }
  }

  lemma DigitsHold(s: string, c: char)
    requires IsDigits(s) && !IsDigit(c)
    ensures c !in s && s != [c]
  {}

  lemma BaseText(base: Base)
    ensures
      var text := Item(base, 1).Render();
      && '/' !in text && ',' !in text && (base.Star? <==> text == "*")
      && (base.Between? <==> '-' in text) && (base.One? <==> IsDigits(text))
  {
    match base {
      case Star =>
      case One(n) =>
        DecimalRoundTrip(n);
        DigitsHold(Decimal(n), '-');
      case Between(a, b) =>
        DecimalRoundTrip(a);
        DecimalRoundTrip(b);
        assert Item(base, 1).Render()[|Decimal(a)|] == '-';
    }
  }

  /** What a printed item should be read as: its meaning, or OutOfRange when that leaves the field's range. */
  function MeaningIn(item: Item, minimum: int, maximum: int): Result<Span> {
    var m := item.Meaning(minimum, maximum);
    if minimum <= m.start <= m.end <= maximum then Ok(m) else Err(OutOfRange)
  }

  lemma ItemRoundTrip(item: Item, minimum: int, maximum: int)
    requires item.step >= 1
    ensures ItemSpan(item.Render(), minimum, maximum) == MeaningIn(item, minimum, maximum)
  {
    var base := Item(item.base, 1).Render();
    BaseText(item.base);
    match item.base {
      case Star =>
      case One(n) =>
        DecimalRoundTrip(n);
      case Between(a, b) =>
        DecimalRoundTrip(a);
        DecimalRoundTrip(b);
        DigitsHold(Decimal(a), '-');
        PartitionJoined(Decimal(a), '-', Decimal(b));
    }
    if item.step == 1 {
      PartitionPlain(base, '/');
    } else {
      DecimalRoundTrip(item.step);
      PartitionJoined(base, '/', Decimal(item.step));
    }
  }

  lemma ItemHasNoComma(item: Item)
    requires item.step >= 1
    ensures ',' !in item.Render()
  {
    BaseText(item.base);
    DecimalRoundTrip(item.step);
    DigitsHold(Decimal(item.step), ',');
  }

  function RenderAll(items: seq<Item>): (r: seq<string>)
    ensures |r| == |items| && forall i :: 0 <= i < |items| ==> r[i] == items[i].Render()
  {
    if items == [] then [] else [items[0].Render()] + RenderAll(items[1..])
  }

  /** A printed list of items reads back as the meanings of the items. */
  lemma FieldRoundTrip(items: seq<Item>, minimum: int, maximum: int)
    requires |items| >= 1
    requires forall i :: 0 <= i < |items| ==> items[i].step >= 1
    ensures
      var spans := FieldSpans(Join(RenderAll(items), ','), minimum, maximum);
      |spans| == |items| && forall i :: 0 <= i < |items| ==> spans[i] == MeaningIn(items[i], minimum, maximum)
  {
    var texts := RenderAll(items);
    forall i | 0 <= i < |items| ensures ',' !in texts[i] {
      ItemHasNoComma(items[i]);
    }
    SplitJoin(texts, ',');
    forall i | 0 <= i < |items| ensures ItemSpan(texts[i], minimum, maximum) == MeaningIn(items[i], minimum, maximum) {
      ItemRoundTrip(items[i], minimum, maximum);
    }
  }

  /** What is written in a field: digits and the marks of the grammar. */
  predicate Plain(s: string) { s != "" && forall i :: 0 <= i < |s| ==> IsDigit(s[i]) || s[i] in {'*', '-', '/', ','} }

  lemma ItemIsPlain(item: Item)
    requires item.step >= 1
    ensures Plain(item.Render())
  {
    DecimalRoundTrip(item.step);
    match item.base {
      case Star =>
      case One(n) => DecimalRoundTrip(n);
      case Between(a, b) =>
        DecimalRoundTrip(a);
        DecimalRoundTrip(b);
    }
  }

  lemma {:induction false} JoinedIsPlain(texts: seq<string>)
    requires |texts| >= 1 && forall t :: t in texts ==> Plain(t)
    ensures Plain(Join(texts, ','))
  {
    assert texts[0] in texts;
    if |texts| > 1 {
      forall t | t in texts[1..] ensures t in texts {}
      JoinedIsPlain(texts[1..]);
    }
  }

  /** A list of items is written without white space. */
  lemma FieldIsPlain(items: seq<Item>)
    requires |items| >= 1 && forall i :: 0 <= i < |items| ==> items[i].step >= 1
    ensures Plain(Join(RenderAll(items), ','))
  {
    forall t | t in RenderAll(items) ensures Plain(t) {
      var i :| 0 <= i < |items| && RenderAll(items)[i] == t;
      ItemIsPlain(items[i]);
    }
    JoinedIsPlain(RenderAll(items));
  }

  function FieldTexts(fields: seq<seq<Item>>): (texts: seq<string>)
    requires forall f :: 0 <= f < |fields| ==> |fields[f]| >= 1
    ensures |texts| == |fields| && forall f :: 0 <= f < |fields| ==> texts[f] == Join(RenderAll(fields[f]), ',')
  {
    if fields == [] then [] else [Join(RenderAll(fields[0]), ',')] + FieldTexts(fields[1..])
  }

  /** Five lists of items written with spaces between them are the five fields of the expression. */
  lemma ExpressionRoundTrip(fields: seq<seq<Item>>)
    requires |fields| == 5
    requires forall f :: 0 <= f < 5 ==> |fields[f]| >= 1 && forall i :: 0 <= i < |fields[f]| ==> fields[f][i].step >= 1
    ensures Words(Join(FieldTexts(fields), ' ')) == FieldTexts(fields)
  {
    var texts := FieldTexts(fields);
    forall w | w in texts ensures w != "" && forall i :: 0 <= i < |w| ==> !IsSpace(w[i]) {
      var f :| 0 <= f < |fields| && texts[f] == w;
      FieldIsPlain(fields[f]);
    }
    WordsJoin(texts);
  }
}
