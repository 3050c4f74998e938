/**
 What a cron field means, from its text to the values it selects (services/api/src/schedules/cron.ts, `parseField`):
 each form of a segment, comma lists, and each form that is rejected. Fields are words: the expression was split
 at its blanks. Nothing here depends on how the text is taken apart.
 */
module CronMeaning {
  import opened Wrappers
  import opened CronText
  import opened CronFields

  /** A text without white space, commas, slashes or dashes that is not a star. */
  predicate Plain(a: string) {
    IsWord(a) && ',' !in a && '/' !in a && '-' !in a && a != "*"
  }

  /** The text after a slash. */
  predicate StepText(n: string) {
    (forall i :: 0 <= i < |n| ==> !IsSpace(n[i])) && ',' !in n && '/' !in n
  }

  /** The text is a name for the value, or no name and the number itself. */
  predicate Reads(a: string, spec: Spec, num: Numeric, v: int) {
    if Lower(a) in spec.aliases then spec.aliases[Lower(a)] == v else num(a) == Some(v)
  }

  predicate ReadsIn(a: string, spec: Spec, num: Numeric, v: int) {
    Reads(a, spec, num, v) && spec.min <= v <= spec.max
  }

  predicate GoodStep(n: string, spec: Spec, num: Numeric, k: int) {
    num(n) == Some(k) && 1 <= k <= spec.max - spec.min + 1
  }

  /** The value lies on the grid that starts at `v`, ends at `w` and has `k` between its points. */
  predicate OnGrid(k: int, v: int, w: int, x: int)
    requires k >= 1
  {
    v <= x <= w && (x - v) % k == 0
  }

  /** Every `k`-th value from `v` to `w`, 7 read as Sunday. */
  function Every(k: int, v: int, w: int, spec: Spec): set<int>
    requires k >= 1
  {
    set x | v <= x <= w && OnGrid(k, v, w, x) :: if spec.sundaySeven && x == 7 then 0 else x
  }

  // ---------- a single segment ----------

  lemma Alone(s: string, spec: Spec, num: Numeric)
    requires spec.Valid()
    ensures ParseSegments([s], spec, num) ==
      match ParseSegment(s, spec, num)
      case Err(e) => Err(e)
      case Ok(r) => Ok([r])
  {
    assert [s][1..] == [];
    assert ParseSegments([], spec, num) == Ok([]);
    if ParseSegment(s, spec, num).Ok? {
      assert [ParseSegment(s, spec, num).value] + [] == [ParseSegment(s, spec, num).value];
    }
  }

  lemma OneSegment(s: string, spec: Spec, num: Numeric)
    requires spec.Valid() && IsWord(s) && ',' !in s
    ensures FieldOf(s, spec, num) ==
      match ParseSegment(s, spec, num)
      case Err(e) => Err(e)
      case Ok(r) => Ok(Field(IsWildcard(s), Every(r.step, r.start, r.end, spec)))
  {
    FieldOfWord(s, spec, num);
    SplitPlain(s, ',');
    Alone(s, spec, num);
    var parsed := ParseSegment(s, spec, num);
    if parsed.Ok? {
      SelectedOne(parsed.value, spec);
    }
  }

  lemma SelectedOne(r: Stepped, spec: Spec)
    requires spec.Valid() && r.Valid(spec)
    ensures (set v | spec.min <= v <= spec.max && Selected([r], spec, v)) == Every(r.step, r.start, r.end, spec)
  {
    forall x | OnGrid(r.step, r.start, r.end, x)
      ensures Selected([r], spec, Fold(spec, x))
    {
      assert [r][0].Has(x);
    }
    forall v | Selected([r], spec, v)
      ensures v in Every(r.step, r.start, r.end, spec)
    {
      var i, x :| 0 <= i < |[r]| && [r][i].Has(x) && v == Fold(spec, x);
      assert OnGrid(r.step, r.start, r.end, x);
    }
  }

  lemma WithoutStep(base: string, spec: Spec, num: Numeric)
    requires spec.Valid() && base != "" && '/' !in base
    ensures ParseSegment(base, spec, num) ==
      match Base(base, false, spec, num)
      case Err(e) => Err(e)
      case Ok((v, w)) => Ok(Stepped(v, w, 1))
  {
    SplitPlain(base, '/');
  }

  lemma WithStep(base: string, n: string, spec: Spec, num: Numeric)
    requires spec.Valid() && base != "" && '/' !in base && '/' !in n
    ensures ParseSegment(base + "/" + n, spec, num) ==
      if num(n).None? || num(n).value < 1 || num(n).value > spec.max - spec.min + 1 then Err(BadStep)
      else
        match Base(base, true, spec, num)
        case Err(e) => Err(e)
        case Ok((v, w)) => Ok(Stepped(v, w, num(n).value))
  {
    SplitPrefix(base, n, '/');
    SplitPlain(n, '/');
  }

  lemma Dashed(a: string, b: string)
    requires '-' !in a && '-' !in b
    ensures Split(a + "-" + b, '-') == [a, b]
  {
    SplitPrefix(a, b, '-');
    SplitPlain(b, '-');
  }

  /** The characters of two texts and of the separator between them. */
  lemma Joined(x: string, c: char, y: string, d: char)
    ensures d in x + [c] + y <==> d in x || d == c || d in y
    ensures (forall i :: 0 <= i < |x| ==> !IsSpace(x[i])) && (forall i :: 0 <= i < |y| ==> !IsSpace(y[i])) && !IsSpace(c) ==>
      IsWord(x + [c] + y)
  {
    var s := x + [c] + y;
    assert s[|x|] == c;
    assert forall i :: 0 <= i < |x| ==> s[i] == x[i];
    assert forall i :: 0 <= i < |y| ==> s[|x| + 1 + i] == y[i];
    assert forall i :: |x| < i < |s| ==> s[i] == y[i - |x| - 1];
  }

  /** A stepped segment is a wildcard exactly if it steps through the star. */
  lemma StarSlash(x: string, y: string)
    requires '/' !in x
    ensures IsWildcard(x + "/" + y) <==> x == "*"
  {
    var s := x + "/" + y;
    assert s[|x|] == '/';
    if |x| == 1 {
      assert x == [x[0]] && s[0] == x[0];
      assert s[..2] == [x[0], '/'];
    } else if |x| >= 2 {
      assert s[1] == x[1];
    }
  }

  /** A segment without a step, in a field of its own. */
  lemma Unstepped(base: string, spec: Spec, num: Numeric)
    requires spec.Valid() && IsWord(base) && ',' !in base && '/' !in base
    ensures FieldOf(base, spec, num) ==
      match Base(base, false, spec, num)
      case Err(e) => Err(e)
      case Ok((v, w)) => Ok(Field(base == "*", Every(1, v, w, spec)))
  {
    OneSegment(base, spec, num);
    WithoutStep(base, spec, num);
    assert |base| >= 2 ==> base[1] != '/';
  }

  /** A segment with a step, in a field of its own. */
  lemma StepField(base: string, n: string, spec: Spec, num: Numeric)
    requires spec.Valid() && IsWord(base) && ',' !in base && '/' !in base && StepText(n)
    ensures FieldOf(base + "/" + n, spec, num) ==
      if num(n).None? || num(n).value < 1 || num(n).value > spec.max - spec.min + 1 then Err(BadStep)
      else
        match Base(base, true, spec, num)
        case Err(e) => Err(e)
        case Ok((v, w)) => Ok(Field(base == "*", Every(num(n).value, v, w, spec)))
  {
    Joined(base, '/', n, ',');
    StarSlash(base, n);
    OneSegment(base + "/" + n, spec, num);
    WithStep(base, n, spec, num);
  }

  /** The text of a span can stand for a segment's base. */
  lemma SpanText(a: string, b: string)
    requires (a == "" || IsWord(a)) && (b == "" || IsWord(b)) && ',' !in a && ',' !in b && '/' !in a && '/' !in b
    ensures IsWord(a + "-" + b) && ',' !in a + "-" + b && '/' !in a + "-" + b && '-' in a + "-" + b
    ensures a + "-" + b != "*"
  {
    Joined(a, '-', b, ',');
    Joined(a, '-', b, '/');
    Joined(a, '-', b, '-');
  }

  lemma SpanBase(a: string, b: string, stepped: bool, spec: Spec, num: Numeric)
    requires spec.Valid() && (a == "" || Plain(a)) && (b == "" || Plain(b))
    ensures IsWord(a + "-" + b) && ',' !in a + "-" + b && '/' !in a + "-" + b && a + "-" + b != "*"
    ensures Base(a + "-" + b, stepped, spec, num) ==
      if a == "" || b == "" then Err(BadRange)
      else
        match ValueOf(a, spec, num)
        case Err(e) => Err(e)
        case Ok(v) =>
          match ValueOf(b, spec, num)
          case Err(e) => Err(e)
          case Ok(w) => if w < v then Err(Descending) else Ok((v, w))
  {
    SpanText(a, b);
    Dashed(a, b);
  }

  lemma ReadsValue(a: string, spec: Spec, num: Numeric, v: int)
    requires ReadsIn(a, spec, num, v)
    ensures ValueOf(a, spec, num) == Ok(v)
  {
  }

  lemma ValueBase(a: string, stepped: bool, spec: Spec, num: Numeric)
    requires spec.Valid() && Plain(a)
    ensures Base(a, stepped, spec, num) ==
      match ValueOf(a, spec, num)
      case Err(e) => Err(e)
      case Ok(v) => Ok((v, if stepped then spec.max else v))
  {
  }

  lemma EveryOne(v: int, spec: Spec)
    ensures Every(1, v, v, spec) == {if spec.sundaySeven && v == 7 then 0 else v}
  {
    assert OnGrid(1, v, v, v);
  }

  lemma SpanOf(a: string, b: string, stepped: bool, spec: Spec, num: Numeric, v: int, w: int)
    requires spec.Valid() && Plain(a) && Plain(b) && ReadsIn(a, spec, num, v) && ReadsIn(b, spec, num, w)
    ensures IsWord(a + "-" + b) && ',' !in a + "-" + b && '/' !in a + "-" + b && a + "-" + b != "*"
    ensures Base(a + "-" + b, stepped, spec, num) == if w < v then Err(Descending) else Ok((v, w))
  {
    SpanBase(a, b, stepped, spec, num);
    ReadsValue(a, spec, num, v);
    ReadsValue(b, spec, num, w);
  }

  // ---------- the accepted forms ----------

  /** A number or a name selects exactly its value. */
  lemma ValueMeans(a: string, spec: Spec, num: Numeric, v: int)
    requires spec.Valid() && Plain(a) && ReadsIn(a, spec, num, v)
    ensures FieldOf(a, spec, num) == Ok(Field(false, {if spec.sundaySeven && v == 7 then 0 else v}))
  {
    ReadsValue(a, spec, num, v);
    ValueBase(a, false, spec, num);
    Unstepped(a, spec, num);
    EveryOne(v, spec);
  }

  /** With a step, a value selects every `k`-th value from it to the maximum. */
  lemma SteppedValueMeans(a: string, n: string, spec: Spec, num: Numeric, v: int, k: int)
    requires spec.Valid() && Plain(a) && ReadsIn(a, spec, num, v) && StepText(n) && GoodStep(n, spec, num, k)
    ensures FieldOf(a + "/" + n, spec, num) == Ok(Field(false, Every(k, v, spec.max, spec)))
  {
    ReadsValue(a, spec, num, v);
    ValueBase(a, true, spec, num);
    StepField(a, n, spec, num);
  }

  /** A span selects everything from its first to its last value. */
  lemma SpanMeans(a: string, b: string, spec: Spec, num: Numeric, v: int, w: int)
    requires spec.Valid() && Plain(a) && Plain(b) && ReadsIn(a, spec, num, v) && ReadsIn(b, spec, num, w) && v <= w
    ensures FieldOf(a + "-" + b, spec, num) == Ok(Field(false, Every(1, v, w, spec)))
  {
    SpanOf(a, b, false, spec, num, v, w);
    Unstepped(a + "-" + b, spec, num);
  }

  /** With a step, a span selects every `k`-th value from its first to its last. */
  lemma SteppedSpanMeans(a: string, b: string, n: string, spec: Spec, num: Numeric, v: int, w: int, k: int)
    requires spec.Valid() && Plain(a) && Plain(b) && ReadsIn(a, spec, num, v) && ReadsIn(b, spec, num, w) && v <= w
    requires StepText(n) && GoodStep(n, spec, num, k)
    ensures FieldOf(a + "-" + b + "/" + n, spec, num) == Ok(Field(false, Every(k, v, w, spec)))
  {
    SpanOf(a, b, true, spec, num, v, w);
    StepField(a + "-" + b, n, spec, num);
  }

  /** A star is a wildcard and selects the whole range. */
  lemma StarMeans(spec: Spec, num: Numeric)
    requires spec.Valid()
    ensures FieldOf("*", spec, num) == Ok(Field(true, Every(1, spec.min, spec.max, spec)))
  {
    Unstepped("*", spec, num);
  }

  /** A stepped star is a wildcard too, though it selects every `k`-th value only. */
  lemma SteppedStarMeans(n: string, spec: Spec, num: Numeric, k: int)
    requires spec.Valid() && StepText(n) && GoodStep(n, spec, num, k)
    ensures FieldOf("*/" + n, spec, num) == Ok(Field(true, Every(k, spec.min, spec.max, spec)))
  {
    var star := "*";
    StarText(star, n);
    StepField(star, n, spec, num);
  }

  lemma StarText(star: string, n: string)
    requires star == "*"
    ensures star + "/" + n == "*/" + n && IsWord(star) && ',' !in star && '/' !in star
  {
    assert star + "/" == "*/";
  }

  /** A wildcard that selects everything from `lo` to `hi`. */
  ghost predicate AllOf(f: Field, lo: int, hi: int) {
    f.wildcard && forall v :: v in f.values <==> lo <= v <= hi
  }

  predicate IsStar(field: string) {
    field == "*"
  }

  lemma StarSelects(field: string, spec: Spec, num: Numeric)
    requires spec.Valid() && IsStar(field)
    ensures FieldOf(field, spec, num).Ok?
    ensures AllOf(FieldOf(field, spec, num).value, spec.min, if spec.sundaySeven then 6 else spec.max)
  {
    StarMeans(spec, num);
    var all := Every(1, spec.min, spec.max, spec);
    forall v | spec.min <= v <= if spec.sundaySeven then 6 else spec.max
      ensures v in all
    {
      assert OnGrid(1, spec.min, spec.max, v);
    }
  }

  /** Five stars select every minute, hour, day, month and weekday, the weekdays being 0 to 6. */
  lemma FiveStars(fields: seq<string>, num: Numeric)
    requires |fields| == 5 && forall i :: 0 <= i < 5 ==> IsStar(fields[i])
    ensures CronOf(fields, num).Ok?
    ensures var c := CronOf(fields, num).value;
      AllOf(c.minute, 0, 59) && AllOf(c.hour, 0, 23) && AllOf(c.dayOfMonth, 1, 31) && AllOf(c.month, 1, 12) && AllOf(c.dayOfWeek, 0, 6)
  {
    StarSelects(fields[0], MINUTE, num);
    StarSelects(fields[1], HOUR, num);
    StarSelects(fields[2], DAY_OF_MONTH, num);
    StarSelects(fields[3], MONTH, num);
    StarSelects(fields[4], DAY_OF_WEEK, num);
  }

  const MONTH_NAMES := ["jan", "feb", "mar", "apr", "may", "jun", "jul", "aug", "sep", "oct", "nov", "dec"]
  const WEEKDAY_NAMES := ["sun", "mon", "tue", "wed", "thu", "fri", "sat"]

  /** The months are named from 1 and the weekdays from 0. */
  lemma NamesMean()
    ensures forall i :: 0 <= i < 12 ==> MONTH_NAMES[i] in MONTH.aliases && MONTH.aliases[MONTH_NAMES[i]] == i + 1
    ensures forall i :: 0 <= i < 7 ==> WEEKDAY_NAMES[i] in DAY_OF_WEEK.aliases && DAY_OF_WEEK.aliases[WEEKDAY_NAMES[i]] == i
    ensures MINUTE.aliases == HOUR.aliases == DAY_OF_MONTH.aliases == map[]
  {
  }

  // ---------- comma lists ----------

  lemma PrependConcat(d: char, a: seq<string>, b: seq<string>)
    requires a != []
    ensures [""] + (a + b) == [""] + a + b
    ensures [[d] + (a + b)[0]] + (a + b)[1..] == [[d] + a[0]] + a[1..] + b
  {
  }

  lemma {:induction false} SplitConcat(x: string, y: string, c: char)
    ensures Split(x + [c] + y, c) == Split(x, c) + Split(y, c)
  {
    var s := x + [c] + y;
    if x == "" {
      assert s[1..] == y;
    } else {
      SplitConcat(x[1..], y, c);
      assert s[1..] == x[1..] + [c] + y;
      PrependConcat(s[0], Split(x[1..], c), Split(y, c));
    }
  }

  lemma {:induction false} SegmentsConcat(a: seq<string>, b: seq<string>, spec: Spec, num: Numeric)
    requires spec.Valid()
    ensures ParseSegments(a + b, spec, num) ==
      match ParseSegments(a, spec, num)
      case Err(e) => Err(e)
      case Ok(r) =>
        match ParseSegments(b, spec, num)
        case Err(e) => Err(e)
        case Ok(t) => Ok(r + t)
  {
    if a == [] {
      assert a + b == b;
      if ParseSegments(b, spec, num).Ok? {
        assert [] + ParseSegments(b, spec, num).value == ParseSegments(b, spec, num).value;
      }
    } else {
      SegmentsConcat(a[1..], b, spec, num);
      assert (a + b)[1..] == a[1..] + b;
      if ParseSegment(a[0], spec, num).Ok? && ParseSegments(a[1..], spec, num).Ok? && ParseSegments(b, spec, num).Ok? {
        Grouped([ParseSegment(a[0], spec, num).value], ParseSegments(a[1..], spec, num).value, ParseSegments(b, spec, num).value);
      }
    }
  }

  lemma SelectedConcat(r: seq<Stepped>, t: seq<Stepped>, spec: Spec, v: int)
    ensures Selected(r + t, spec, v) <==> Selected(r, spec, v) || Selected(t, spec, v)
  {
    if Selected(r, spec, v) {
      var i, x :| 0 <= i < |r| && r[i].Has(x) && v == Fold(spec, x);
      assert (r + t)[i].Has(x);
    }
    if Selected(t, spec, v) {
      var i, x :| 0 <= i < |t| && t[i].Has(x) && v == Fold(spec, x);
      assert (r + t)[|r| + i].Has(x);
    }
    if Selected(r + t, spec, v) {
      var i, x :| 0 <= i < |r + t| && (r + t)[i].Has(x) && v == Fold(spec, x);
      assert if i < |r| then r[i].Has(x) else t[i - |r|].Has(x);
    }
  }

  /** A list in terms of its segments. */
  lemma ListField(x: string, y: string, spec: Spec, num: Numeric)
    requires spec.Valid() && (x == "" || IsWord(x)) && (y == "" || IsWord(y))
    ensures FieldOf(x + "," + y, spec, num) ==
      Assemble(IsWildcard(x + "," + y), ParseSegments(Split(x, ',') + Split(y, ','), spec, num), spec)
  {
    Joined(x, ',', y, ',');
    FieldOfWord(x + "," + y, spec, num);
    SplitConcat(x, y, ',');
  }

  lemma ListWildcard(x: string, y: string)
    ensures IsWildcard(x + "," + y) <==> "*/" <= x
  {
    var s := x + "," + y;
    assert s[|x|] == ',';
    if |x| >= 2 {
      assert s[..2] == x[..2];
    } else if |x| == 1 {
      assert s[1] == ',';
    }
  }

  lemma AssembleConcat(a: Result<seq<Stepped>, CronError>, b: Result<seq<Stepped>, CronError>, spec: Spec, wildcard: bool)
    requires a.Ok? && b.Ok?
    ensures Assemble(wildcard, Ok(a.value + b.value), spec) ==
      Ok(Field(wildcard, Assemble(wildcard, a, spec).value.values + Assemble(wildcard, b, spec).value.values))
  {
    forall v
      ensures Selected(a.value + b.value, spec, v) <==> Selected(a.value, spec, v) || Selected(b.value, spec, v)
    {
      SelectedConcat(a.value, b.value, spec, v);
    }
    assert Assemble(wildcard, Ok(a.value + b.value), spec).value.values ==
      Assemble(wildcard, a, spec).value.values + Assemble(wildcard, b, spec).value.values;
  }

  /** A list means the union of its parts, with the error of the first bad part; it is a wildcard only if it
      begins with a stepped star. */
  lemma ListMeans(x: string, y: string, spec: Spec, num: Numeric)
    requires spec.Valid() && IsWord(x) && IsWord(y)
    ensures FieldOf(x + "," + y, spec, num) ==
      match FieldOf(x, spec, num)
      case Err(e) => Err(e)
      case Ok(f) =>
        match FieldOf(y, spec, num)
        case Err(e) => Err(e)
        case Ok(g) => Ok(Field("*/" <= x, f.values + g.values))
  {
    ListField(x, y, spec, num);
    ListWildcard(x, y);
    FieldOfWord(x, spec, num);
    FieldOfWord(y, spec, num);
    ListParts(Split(x, ','), Split(y, ','), spec, num, "*/" <= x, IsWildcard(x), IsWildcard(y));
  }

  lemma ListParts(a: seq<string>, b: seq<string>, spec: Spec, num: Numeric, wildcard: bool, first: bool, second: bool)
    requires spec.Valid()
    ensures Assemble(wildcard, ParseSegments(a + b, spec, num), spec) ==
      match Assemble(first, ParseSegments(a, spec, num), spec)
      case Err(e) => Err(e)
      case Ok(f) =>
        match Assemble(second, ParseSegments(b, spec, num), spec)
        case Err(e) => Err(e)
        case Ok(g) => Ok(Field(wildcard, f.values + g.values))
  {
    SegmentsConcat(a, b, spec, num);
    var r, t := ParseSegments(a, spec, num), ParseSegments(b, spec, num);
    if r.Ok? && t.Ok? {
      AssembleConcat(r, t, spec, wildcard);
    }
  }

  // ---------- the rejected forms ----------

  /** Only white space is an empty field, and nothing else is. */
  lemma EmptyExactly(raw: string, spec: Spec, num: Numeric)
    requires spec.Valid()
    ensures FieldOf(raw, spec, num) == Err(EmptyField) <==> Trim(raw) == ""
  {
    if Trim(raw) != "" {
      NeverEmpty(Split(Trim(raw), ','), spec, num);
    }
  }

  lemma {:induction false} NeverEmpty(segments: seq<string>, spec: Spec, num: Numeric)
    requires spec.Valid()
    ensures ParseSegments(segments, spec, num) != Err(EmptyField)
  {
    if segments != [] {
      NeverEmpty(segments[1..], spec, num);
    }
  }

  /** A value text that is no integer, or one out of range. */
  lemma BadValue(a: string, spec: Spec, num: Numeric)
    requires spec.Valid() && Plain(a)
    ensures (forall v :: !Reads(a, spec, num, v)) ==> FieldOf(a, spec, num) == Err(NotInteger)
    ensures forall v :: Reads(a, spec, num, v) && !(spec.min <= v <= spec.max) ==> FieldOf(a, spec, num) == Err(OutOfRange)
  {
    Unstepped(a, spec, num);
    if Lower(a) in spec.aliases {
      assert Reads(a, spec, num, spec.aliases[Lower(a)]);
    } else if num(a).Some? {
      assert Reads(a, spec, num, num(a).value);
    }
  }

  /** A step that is no integer, or not between one and the size of the range, whatever it is applied to. */
  lemma BadStepText(base: string, n: string, spec: Spec, num: Numeric)
    requires spec.Valid() && IsWord(base) && ',' !in base && '/' !in base && StepText(n)
    requires forall k :: !GoodStep(n, spec, num, k)
    ensures FieldOf(base + "/" + n, spec, num) == Err(BadStep)
  {
    StepField(base, n, spec, num);
    assert num(n).Some? ==> !GoodStep(n, spec, num, num(n).value);
  }

  /** A good step leaves the error of what it is applied to. */
  lemma SteppedBad(base: string, n: string, spec: Spec, num: Numeric, k: int)
    requires spec.Valid() && IsWord(base) && ',' !in base && '/' !in base && StepText(n) && GoodStep(n, spec, num, k)
    ensures FieldOf(base, spec, num).Err? ==> FieldOf(base + "/" + n, spec, num) == FieldOf(base, spec, num)
  {
    StepField(base, n, spec, num);
    Unstepped(base, spec, num);
    SameError(base, spec, num);
  }

  lemma SameError(base: string, spec: Spec, num: Numeric)
    requires spec.Valid()
    ensures Base(base, false, spec, num).Err? ==> Base(base, true, spec, num) == Base(base, false, spec, num)
  {
  }

  /** A slash with nothing before it. */
  lemma NothingStepped(n: string, spec: Spec, num: Numeric)
    requires spec.Valid() && StepText(n)
    ensures FieldOf("/" + n, spec, num) == Err(BadSegment)
  {
    assert "" + ['/'] + n == "/" + n;
    Joined("", '/', n, ',');
    OneSegment("/" + n, spec, num);
    SplitPrefix("", n, '/');
  }

  /** Two slashes. */
  lemma SteppedTwice(x: string, y: string, spec: Spec, num: Numeric)
    requires spec.Valid() && IsWord(x) && ',' !in x && '/' in x && StepText(y)
    ensures FieldOf(x + "/" + y, spec, num) == Err(BadSegment)
  {
    Joined(x, '/', y, ',');
    OneSegment(x + "/" + y, spec, num);
    SplitConcat(x, y, '/');
    SplitsAt(x, '/');
  }

  lemma {:induction false} SplitsAt(x: string, c: char)
    requires c in x
    ensures |Split(x, c)| >= 2
  {
    if x[0] != c {
      assert c in x[1..];
      SplitsAt(x[1..], c);
    }
  }

  /** A span that lacks an end. */
  lemma HalfSpan(a: string, b: string, spec: Spec, num: Numeric)
    requires spec.Valid() && (a == "" || Plain(a)) && (b == "" || Plain(b)) && (a == "" || b == "")
    ensures FieldOf(a + "-" + b, spec, num) == Err(BadRange)
  {
    SpanBase(a, b, false, spec, num);
    Unstepped(a + "-" + b, spec, num);
  }

  /** A span with more than two ends. */
  lemma LongSpan(x: string, y: string, spec: Spec, num: Numeric)
    requires spec.Valid() && IsWord(x) && ',' !in x && '/' !in x && '-' in x && (y == "" || Plain(y))
    ensures FieldOf(x + "-" + y, spec, num) == Err(BadRange)
  {
    SpanText(x, y);
    SplitConcat(x, y, '-');
    SplitsAt(x, '-');
    Unstepped(x + "-" + y, spec, num);
  }

  /** A span of which one end is bad, the first one first, or whose ends descend. */
  lemma BadSpan(a: string, b: string, spec: Spec, num: Numeric)
    requires spec.Valid() && Plain(a) && Plain(b)
    ensures FieldOf(a, spec, num).Err? ==> FieldOf(a + "-" + b, spec, num) == FieldOf(a, spec, num)
    ensures FieldOf(a, spec, num).Ok? && FieldOf(b, spec, num).Err? ==> FieldOf(a + "-" + b, spec, num) == FieldOf(b, spec, num)
  {
    SpanBase(a, b, false, spec, num);
    Unstepped(a + "-" + b, spec, num);
    Unstepped(a, spec, num);
    Unstepped(b, spec, num);
  }

  lemma DescendingSpan(a: string, b: string, spec: Spec, num: Numeric, v: int, w: int)
    requires spec.Valid() && Plain(a) && Plain(b) && ReadsIn(a, spec, num, v) && ReadsIn(b, spec, num, w) && w < v
    ensures FieldOf(a + "-" + b, spec, num) == Err(Descending)
  {
    SpanOf(a, b, false, spec, num, v, w);
    Unstepped(a + "-" + b, spec, num);
  }

  /** An empty part of a list. */
  lemma EmptyPart(x: string, y: string, spec: Spec, num: Numeric)
    requires spec.Valid() && (x == "" || IsWord(x)) && (y == "" || IsWord(y)) && (x == "" || y == "")
    ensures FieldOf(x + "," + y, spec, num) ==
      if x != "" && FieldOf(x, spec, num).Err? then FieldOf(x, spec, num) else Err(BadSegment)
  {
    ListField(x, y, spec, num);
    SegmentsConcat(Split(x, ','), Split(y, ','), spec, num);
    EmptySegment(spec, num);
    if x != "" { FieldOfWord(x, spec, num); }
  }

  lemma EmptySegment(spec: Spec, num: Numeric)
    requires spec.Valid()
    ensures ParseSegments(Split("", ','), spec, num) == Err(BadSegment)
  {
    assert Split("", ',') == [""];
    assert Split("", '/') == [""];
  }
}
