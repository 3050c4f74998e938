/**
 Parsing of five-field cron expressions (services/api/src/schedules/cron.ts).

 `Numeric` stands for JavaScript's `Number(raw)`, restricted to the cases where
 `Number.isInteger` accepts it. It is a parameter: which texts denote integers ("5", "05",
 "0x1f", "1e1", and "" for zero) is the language's business, not this repository's.
 */
module CronFields {
  import opened Wrappers
  import opened CronText

  type Numeric = string -> Option<int>

  datatype CronError =
    | EmptyField | BadSegment | BadStep | BadRange | NotInteger | OutOfRange | Descending
    | NoValues | NotFiveFields | NoOccurrence | UnknownZone

  /** What distinguishes the five fields: bounds, names, and whether 7 also means Sunday. */
  datatype Spec = Spec(min: int, max: int, aliases: map<string, int>, sundaySeven: bool) {
    predicate Valid() {
      min <= max && (sundaySeven ==> min == 0 && max == 7)
    }
  }

  datatype Field = Field(wildcard: bool, values: set<int>)

  datatype Cron = Cron(minute: Field, hour: Field, dayOfMonth: Field, month: Field, dayOfWeek: Field)

  const MONTHS := map[
    "jan" := 1, "feb" := 2, "mar" := 3, "apr" := 4, "may" := 5, "jun" := 6,
    "jul" := 7, "aug" := 8, "sep" := 9, "oct" := 10, "nov" := 11, "dec" := 12]

  const WEEKDAYS := map["sun" := 0, "mon" := 1, "tue" := 2, "wed" := 3, "thu" := 4, "fri" := 5, "sat" := 6]

  const MINUTE := Spec(0, 59, map[], false)
  const HOUR := Spec(0, 23, map[], false)
  const DAY_OF_MONTH := Spec(1, 31, map[], false)
  const MONTH := Spec(1, 12, MONTHS, false)
  const DAY_OF_WEEK := Spec(0, 7, WEEKDAYS, true)

  function ValueOf(raw: string, spec: Spec, num: Numeric): Result<int, CronError> {
    var parsed := if Lower(raw) in spec.aliases then Some(spec.aliases[Lower(raw)]) else num(raw);
    match parsed
    case None => Err(NotInteger)
    case Some(v) => if v < spec.min || v > spec.max then Err(OutOfRange) else Ok(v)
  }

  /** One comma-separated segment, resolved: every `step`-th value from `start` to `end`. */
  datatype Stepped = Stepped(start: int, end: int, step: int) {
    predicate Valid(spec: Spec) {
      spec.min <= start <= end <= spec.max && step >= 1
    }

    predicate Has(v: int) {
      step >= 1 && start <= v <= end && (v - start) % step == 0
    }
  }

  function Fold(spec: Spec, v: int): int {
    if spec.sundaySeven && v == 7 then 0 else v
  }

  /** The start and end of a segment's base; `stepped` says whether a `/step` follows it. */
  function Base(base: string, stepped: bool, spec: Spec, num: Numeric): (r: Result<(int, int), CronError>)
    requires spec.Valid()
    ensures r.Ok? ==> spec.min <= r.value.0 <= r.value.1 <= spec.max
  {
    if base == "*" then Ok((spec.min, spec.max))
    else if '-' in base then
      var ends := Split(base, '-');
      if |ends| < 2 || ends[0] == "" || ends[1] == "" || |ends| > 2 then Err(BadRange)
      else
        match ValueOf(ends[0], spec, num)
        case Err(e) => Err(e)
        case Ok(start) =>
          match ValueOf(ends[1], spec, num)
          case Err(e) => Err(e)
          case Ok(end) => if end < start then Err(Descending) else Ok((start, end))
    else
      match ValueOf(base, spec, num)
      case Err(e) => Err(e)
      case Ok(start) => Ok((start, if stepped then spec.max else start))
  }

  function ParseSegment(segment: string, spec: Spec, num: Numeric): (r: Result<Stepped, CronError>)
    requires spec.Valid()
    ensures r.Ok? ==> r.value.Valid(spec)
  {
    var pieces := Split(segment, '/');
    if |pieces| > 2 || pieces[0] == "" then Err(BadSegment)
    else
      var step := if |pieces| == 1 then Some(1) else num(pieces[1]);
      if step.None? || step.value < 1 || step.value > spec.max - spec.min + 1 then Err(BadStep)
      else
        match Base(pieces[0], |pieces| == 2, spec, num)
        case Err(e) => Err(e)
        case Ok((start, end)) => Ok(Stepped(start, end, step.value))
  }

  /** All segments, or the first error among them. */
  function ParseSegments(segments: seq<string>, spec: Spec, num: Numeric): (r: Result<seq<Stepped>, CronError>)
    requires spec.Valid()
    ensures r.Ok? ==> |r.value| == |segments| && forall i :: 0 <= i < |segments| ==> r.value[i].Valid(spec)
  {
    if segments == [] then Ok([])
    else
      match ParseSegment(segments[0], spec, num)
      case Err(e) => Err(e)
      case Ok(s) =>
        match ParseSegments(segments[1..], spec, num)
        case Err(e) => Err(e)
        case Ok(rest) => Ok([s] + rest)
  }

  predicate IsWildcard(field: string) {
    field == "*" || "*/" <= field
  }

  /** The values a list of segments selects: the union of their stepped ranges, 7 read as Sunday. */
  ghost predicate Selected(ranges: seq<Stepped>, spec: Spec, v: int) {
    exists i, x :: 0 <= i < |ranges| && ranges[i].Has(x) && v == Fold(spec, x)
  }

  /** What a field text means, stated without the loops that compute it. */
  ghost function FieldOf(raw: string, spec: Spec, num: Numeric): Result<Field, CronError>
    requires spec.Valid()
  {
    if Trim(raw) == "" then Err(EmptyField)
    else Assemble(IsWildcard(Trim(raw)), ParseSegments(Split(Trim(raw), ','), spec, num), spec)
  }

  ghost function Assemble(wildcard: bool, parsed: Result<seq<Stepped>, CronError>, spec: Spec): Result<Field, CronError> {
    match parsed
    case Err(e) => Err(e)
    case Ok(ranges) => Ok(Field(wildcard, set v | spec.min <= v <= spec.max && Selected(ranges, spec, v)))
  }

  // ---------- the loops ----------

  lemma StepUnique(start: int, value: int, step: int, x: int)
    requires step >= 1 && (value - start) % step == 0 && value <= x < value + step
    ensures (x - start) % step == 0 <==> x == value
    ensures (value + step - start) % step == 0
  {
    var q := (value - start) / step;
    assert value - start == step * q;
    ModOfSum(q, step, x - value);
    ModOfSum(q + 1, step, 0);
    assert value + step - start == step * (q + 1);
  }

  lemma MulAtLeast(step: int, d: int)
    requires step >= 1 && d >= 1
    ensures step * d >= step
  {
  }

  lemma ModOfSum(q: int, step: int, r: int)
    requires 0 <= r < step
    ensures (step * q + r) % step == r
  {
    var a := step * q + r;
    var d, r' := q - a / step, a % step;
    assert a == step * (a / step) + r';
    assert step * d == step * q - step * (a / step);
    if d >= 1 { MulAtLeast(step, d); }
    if d <= -1 { MulAtLeast(step, -d); }
  }

  /** The inner loop of the parser: the values of one stepped range are added to the set. */
  method AddRange(before: set<int>, range: Stepped, spec: Spec) returns (values: set<int>)
    requires range.step >= 1
    ensures forall v :: v in values <==> v in before || exists x :: range.Has(x) && v == Fold(spec, x)
  {
    values := before;
    var value := range.start;
    assert (value - range.start) % range.step == 0;
    while value <= range.end
      invariant value >= range.start && (value - range.start) % range.step == 0
      invariant forall v :: v in values <==> v in before || exists x :: range.Has(x) && x < value && v == Fold(spec, x)
      decreases range.end - value
    {
      forall x | value <= x < value + range.step
        ensures range.Has(x) && x <= range.end ==> x == value
      {
        StepUnique(range.start, value, range.step, x);
      }
      StepUnique(range.start, value, range.step, value);
      assert range.Has(value);
      values := values + {Fold(spec, value)};
      value := value + range.step;
    }
  }

  /** `parseField`. */
  method ParseField(raw: string, spec: Spec, num: Numeric) returns (r: Result<Field, CronError>)
    requires spec.Valid()
    ensures r == FieldOf(raw, spec, num)
  {
    var field := Trim(raw);
    if field == "" {
      return Err(EmptyField);
    }
    var values: set<int> := {};
    var segments := Split(field, ',');
    ghost var ranges: seq<Stepped> := [];
    for i := 0 to |segments|
      invariant |ranges| == i && forall k :: 0 <= k < i ==> ranges[k].Valid(spec)
      invariant ParseSegments(segments[..i], spec, num) == Ok(ranges)
      invariant forall v :: v in values <==> Selected(ranges, spec, v)
    {
      var segment := ParseSegment(segments[i], spec, num);
      SegmentsExtend(segments, i, spec, num);
      if segment.Err? {
        return Err(segment.error);
      }
      values := AddRange(values, segment.value, spec);
      SelectedExtend(ranges, segment.value, spec);
      ranges := ranges + [segment.value];
    }
    assert segments[..|segments|] == segments;
    SelectedBounds(ranges, spec);
    ghost var v :| Selected(ranges, spec, v);
    assert v in values;
    assert values == set v | spec.min <= v <= spec.max && Selected(ranges, spec, v);
    r := if values == {} then Err(NoValues) else Ok(Field(IsWildcard(field), values));
  }

  /** Segments are parsed left to right: an error at `i` is the error of the whole list. */
  lemma {:induction false} SegmentsExtend(segments: seq<string>, i: nat, spec: Spec, num: Numeric)
    requires spec.Valid() && i < |segments| && ParseSegments(segments[..i], spec, num).Ok?
    ensures match ParseSegment(segments[i], spec, num)
      case Err(e) => ParseSegments(segments, spec, num) == Err(e)
      case Ok(s) => ParseSegments(segments[..i + 1], spec, num) == Ok(ParseSegments(segments[..i], spec, num).value + [s])
  {
    if i > 0 {
      var rest := segments[1..];
      var head := ParseSegment(segments[0], spec, num);
      assert segments[..i][1..] == rest[..i - 1];
      assert segments[..i + 1][1..] == rest[..i];
      SegmentsExtend(rest, i - 1, spec, num);
      if ParseSegment(segments[i], spec, num).Ok? {
        var before := ParseSegments(rest[..i - 1], spec, num).value;
        var s := ParseSegment(segments[i], spec, num).value;
        assert [head.value] + (before + [s]) == ([head.value] + before) + [s];
      }
    } else {
      assert segments[..1][1..] == [];
      assert segments[..1][0] == segments[0];
      if ParseSegment(segments[0], spec, num).Ok? {
        var s := ParseSegment(segments[0], spec, num).value;
        assert [s] + [] == [] + [s] == [s];
      }
    }
  }

  lemma SelectedExtend(ranges: seq<Stepped>, s: Stepped, spec: Spec)
    ensures forall v :: Selected(ranges + [s], spec, v) <==>
      Selected(ranges, spec, v) || exists x :: s.Has(x) && v == Fold(spec, x)
  {
    var all := ranges + [s];
    forall v | Selected(ranges, spec, v)
      ensures Selected(all, spec, v)
    {
      var i, x :| 0 <= i < |ranges| && ranges[i].Has(x) && v == Fold(spec, x);
      assert all[i].Has(x);
    }
    forall v, x | s.Has(x) && v == Fold(spec, x)
      ensures Selected(all, spec, v)
    {
      assert all[|ranges|].Has(x);
    }
    forall v | Selected(all, spec, v)
      ensures Selected(ranges, spec, v) || exists x :: s.Has(x) && v == Fold(spec, x)
    {
      var i, x :| 0 <= i < |all| && all[i].Has(x) && v == Fold(spec, x);
      if i < |ranges| { assert ranges[i].Has(x); } else { assert s.Has(x); }
    }
  }

  /** Accepted fields select something, and only values in range. */
  lemma SelectedBounds(ranges: seq<Stepped>, spec: Spec)
    requires spec.Valid() && forall k :: 0 <= k < |ranges| ==> ranges[k].Valid(spec)
    ensures forall v :: Selected(ranges, spec, v) ==> spec.min <= v <= (if spec.sundaySeven then 6 else spec.max)
    ensures ranges != [] ==> exists v :: Selected(ranges, spec, v)
  {
    if ranges != [] {
      assert ranges[0].Has(ranges[0].start);
      assert Selected(ranges, spec, Fold(spec, ranges[0].start));
    }
  }

  lemma {:induction false} SegmentErrors(segments: seq<string>, spec: Spec, num: Numeric)
    requires spec.Valid()
    ensures ParseSegments(segments, spec, num) != Err(NoValues)
  {
    if segments != [] {
      SegmentErrors(segments[1..], spec, num);
    }
  }

  /** A field is accepted exactly when its segments are, and then selects exactly the union of their
      stepped ranges, at least one value and all in range; so the emptiness check never fires. */
  lemma FieldIsUnion(raw: string, spec: Spec, num: Numeric)
    requires spec.Valid() && Trim(raw) != ""
    ensures FieldOf(raw, spec, num) != Err(NoValues)
    ensures match ParseSegments(Split(Trim(raw), ','), spec, num)
      case Err(e) => FieldOf(raw, spec, num) == Err(e)
      case Ok(ranges) =>
        && FieldOf(raw, spec, num).Ok?
        && FieldInRange(FieldOf(raw, spec, num).value, spec.min, if spec.sundaySeven then 6 else spec.max)
        && forall v :: v in FieldOf(raw, spec, num).value.values <==> Selected(ranges, spec, v)
  {
    var segments := Split(Trim(raw), ',');
    SegmentErrors(segments, spec, num);
    if ParseSegments(segments, spec, num).Ok? {
      var ranges := ParseSegments(segments, spec, num).value;
      SelectedBounds(ranges, spec);
      var v :| Selected(ranges, spec, v);
      assert v in FieldOf(raw, spec, num).value.values;
    }
  }

  // ---------- whole expressions ----------

  /** The first failing field decides the error. */
  function Collect(minute: Result<Field, CronError>, hour: Result<Field, CronError>,
                   dayOfMonth: Result<Field, CronError>, month: Result<Field, CronError>,
                   dayOfWeek: Result<Field, CronError>): Result<Cron, CronError>
  {
    if minute.Err? then Err(minute.error)
    else if hour.Err? then Err(hour.error)
    else if dayOfMonth.Err? then Err(dayOfMonth.error)
    else if month.Err? then Err(month.error)
    else if dayOfWeek.Err? then Err(dayOfWeek.error)
    else Ok(Cron(minute.value, hour.value, dayOfMonth.value, month.value, dayOfWeek.value))
  }

  /** What a list of field texts means as a schedule. */
  ghost function CronOf(fields: seq<string>, num: Numeric): Result<Cron, CronError> {
    if |fields| < 5 then Err(NotFiveFields)
    else Collect(FieldOf(fields[0], MINUTE, num), FieldOf(fields[1], HOUR, num),
                 FieldOf(fields[2], DAY_OF_MONTH, num), FieldOf(fields[3], MONTH, num),
                 FieldOf(fields[4], DAY_OF_WEEK, num))
  }

  /** `parseCron` on a normalised expression. */
  method ParseCron(expression: string, num: Numeric) returns (r: Result<Cron, CronError>)
    ensures r == CronOf(Split(expression, ' '), num)
  {
    var fields := Split(expression, ' ');
    if |fields| < 5 {
      return Err(NotFiveFields);
    }
    var minute := ParseField(fields[0], MINUTE, num);
    if minute.Err? { return Err(minute.error); }
    var hour := ParseField(fields[1], HOUR, num);
    if hour.Err? { return Err(hour.error); }
    var dayOfMonth := ParseField(fields[2], DAY_OF_MONTH, num);
    if dayOfMonth.Err? { return Err(dayOfMonth.error); }
    var month := ParseField(fields[3], MONTH, num);
    if month.Err? { return Err(month.error); }
    var dayOfWeek := ParseField(fields[4], DAY_OF_WEEK, num);
    if dayOfWeek.Err? { return Err(dayOfWeek.error); }
    r := Ok(Cron(minute.value, hour.value, dayOfMonth.value, month.value, dayOfWeek.value));
  }

  ghost predicate FieldInRange(f: Field, lo: int, hi: int) {
    (exists v :: v in f.values) && forall v :: v in f.values ==> lo <= v <= hi
  }

  ghost predicate InRange(c: Cron) {
    && FieldInRange(c.minute, 0, 59)
    && FieldInRange(c.hour, 0, 23)
    && FieldInRange(c.dayOfMonth, 1, 31)
    && FieldInRange(c.month, 1, 12)
    && FieldInRange(c.dayOfWeek, 0, 6)
  }

  lemma FieldRange(raw: string, spec: Spec, num: Numeric)
    requires spec.Valid() && FieldOf(raw, spec, num).Ok?
    ensures FieldInRange(FieldOf(raw, spec, num).value, spec.min, if spec.sundaySeven then 6 else spec.max)
  {
    FieldIsUnion(raw, spec, num);
  }

  /** Every accepted expression selects something in each field, and nothing out of range. */
  lemma AcceptedInRange(fields: seq<string>, num: Numeric)
    requires CronOf(fields, num).Ok?
    ensures InRange(CronOf(fields, num).value)
  {
    FieldRange(fields[0], MINUTE, num);
    FieldRange(fields[1], HOUR, num);
    FieldRange(fields[2], DAY_OF_MONTH, num);
    FieldRange(fields[3], MONTH, num);
    FieldRange(fields[4], DAY_OF_WEEK, num);
  }

  function NormalText(expression: string): string {
    Lower(Collapse(Trim(expression)))
  }

  /** `normalizeCronExpression`: five words that each parse, or the error of the first that does not. */
  method Normalize(expression: string, num: Numeric) returns (r: Result<string, CronError>)
    ensures r == if |Words(expression)| != 5 then Err(NotFiveFields)
      else match CronOf(LowerAll(Words(expression)), num)
        case Err(e) => Err(e)
        case Ok(_) => Ok(NormalText(expression))
  {
    var normalized := NormalText(expression);
    var fields := Split(normalized, ' ');
    NormalTextWords(expression);
    if |fields| != 5 {
      return Err(NotFiveFields);
    }
    var parsed := ParseCron(normalized, num);
    r := if parsed.Err? then Err(parsed.error) else Ok(normalized);
  }

  /** Splitting the normal form at blanks gives the expression's own words, in lower case. */
  lemma NormalTextWords(expression: string)
    ensures Words(NormalText(expression)) == LowerAll(Words(expression))
    ensures Words(expression) != [] ==> Split(NormalText(expression), ' ') == LowerAll(Words(expression))
    ensures Words(expression) == [] ==> Split(NormalText(expression), ' ') == [""]
  {
    var ws := Words(expression);
    NormalIsJoinedWords(expression);
    LowerOfJoin(ws);
    LowerKeepsWords(ws);
    WordsOfJoin(LowerAll(ws));
    if ws != [] {
      SplitOfJoin(LowerAll(ws));
    }
  }

  /** Normalising twice is normalising once. */
  lemma NormalizeIdempotent(expression: string)
    ensures NormalText(NormalText(expression)) == NormalText(expression)
  {
    var ws := Words(expression);
    NormalTextWords(expression);
    NormalIsJoinedWords(expression);
    NormalIsJoinedWords(NormalText(expression));
    LowerOfJoin(ws);
    LowerOfJoin(LowerAll(ws));
    forall i | 0 <= i < |ws| ensures LowerAll(LowerAll(ws))[i] == LowerAll(ws)[i] {
      LowerTwice(ws[i]);
    }
    assert LowerAll(LowerAll(ws)) == LowerAll(ws);
  }

  /** JavaScript reads a number in either case ("0X1F" and "0x1f"). */
  ghost predicate CaseBlind(num: Numeric) {
    forall s :: num(Lower(s)) == num(s)
  }

  lemma ValueOfLower(raw: string, spec: Spec, num: Numeric)
    requires CaseBlind(num)
    ensures ValueOf(Lower(raw), spec, num) == ValueOf(raw, spec, num)
  {
    LowerTwice(raw);
  }

  lemma LowerHas(s: string, c: char)
    requires LowerChar(c) == c && !('a' <= c <= 'z')
    ensures c in Lower(s) <==> c in s
  {
    if c in s {
      var i :| 0 <= i < |s| && s[i] == c;
      assert Lower(s)[i] == c;
    }
  }

  lemma LowerStar(s: string)
    ensures Lower(s) == "*" <==> s == "*"
    ensures "*/" <= Lower(s) <==> "*/" <= s
    ensures Lower(s) == "" <==> s == ""
  {
    if |s| == 1 { assert s == [s[0]]; }
    if |s| >= 2 {
      assert "*/"[0] == '*' && "*/"[1] == '/';
      assert s[..2] == [s[0], s[1]];
      assert Lower(s)[..2] == [Lower(s)[0], Lower(s)[1]];
    }
  }

  lemma BaseLower(base: string, stepped: bool, spec: Spec, num: Numeric)
    requires spec.Valid() && CaseBlind(num)
    ensures Base(Lower(base), stepped, spec, num) == Base(base, stepped, spec, num)
  {
    LowerStar(base);
    LowerHas(base, '-');
    SplitLower(base, '-');
    ValueOfLower(base, spec, num);
    var ends := Split(base, '-');
    if |ends| == 2 {
      LowerStar(ends[0]);
      LowerStar(ends[1]);
      ValueOfLower(ends[0], spec, num);
      ValueOfLower(ends[1], spec, num);
    }
  }

  lemma SegmentLower(segment: string, spec: Spec, num: Numeric)
    requires spec.Valid() && CaseBlind(num)
    ensures ParseSegment(Lower(segment), spec, num) == ParseSegment(segment, spec, num)
  {
    SplitLower(segment, '/');
    var pieces := Split(segment, '/');
    LowerStar(pieces[0]);
    BaseLower(pieces[0], |pieces| == 2, spec, num);
  }

  lemma {:induction false} SegmentsLower(segments: seq<string>, spec: Spec, num: Numeric)
    requires spec.Valid() && CaseBlind(num)
    ensures ParseSegments(LowerAll(segments), spec, num) == ParseSegments(segments, spec, num)
  {
    if segments != [] {
      SegmentLower(segments[0], spec, num);
      SegmentsLower(segments[1..], spec, num);
      assert LowerAll(segments)[1..] == LowerAll(segments[1..]);
    }
  }

  lemma FieldOfWord(word: string, spec: Spec, num: Numeric)
    requires spec.Valid() && IsWord(word)
    ensures FieldOf(word, spec, num) == Assemble(IsWildcard(word), ParseSegments(Split(word, ','), spec, num), spec)
  {
    TrimWord(word);
  }

  /** Lower-casing a field leaves its meaning alone. */
  lemma FieldOfLower(word: string, spec: Spec, num: Numeric)
    requires spec.Valid() && CaseBlind(num) && IsWord(word)
    ensures FieldOf(Lower(word), spec, num) == FieldOf(word, spec, num)
  {
    SplitLower(word, ',');
    SegmentsLower(Split(word, ','), spec, num);
    LowerStar(word);
    assert IsWord(Lower(word));
    FieldOfWord(word, spec, num);
    FieldOfWord(Lower(word), spec, num);
  }

  /** Normalising leaves the selected values alone: the words as written mean what the normal form means. */
  lemma NormalizeKeepsMeaning(expression: string, num: Numeric)
    requires CaseBlind(num) && |Words(expression)| == 5
    ensures CronOf(Split(NormalText(expression), ' '), num) == CronOf(Words(expression), num)
  {
    var ws := Words(expression);
    NormalTextWords(expression);
    FieldOfLower(ws[0], MINUTE, num);
    FieldOfLower(ws[1], HOUR, num);
    FieldOfLower(ws[2], DAY_OF_MONTH, num);
    FieldOfLower(ws[3], MONTH, num);
    FieldOfLower(ws[4], DAY_OF_WEEK, num);
  }
}
