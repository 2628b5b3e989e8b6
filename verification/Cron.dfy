/** Cron triggers (engine/runtime/scheduler.py): matching five-field expressions, and
    emitting once per matching minute.  Matching works on the text of the fields. */
module Cron {
  import opened Tasks

  /** A value, or the ValueError the code raises. */
  datatype Checked<+T> = Fine(value: T) | Invalid

  // ---------------------------------------------------------------------------
  // Text
  // ---------------------------------------------------------------------------

  /** `s.split(c)` for a single character. */
  function Split(s: string, c: char): (parts: seq<string>)
    ensures parts != []
  {
    if s == "" then [""]
    else
      var rest := Split(s[1..], c);
      if s[0] == c then [""] + rest else [[s[0]] + rest[0]] + rest[1..]
  }

  function StripLeft(s: string): string {
    if s != "" && Space(s[0]) then StripLeft(s[1..]) else s
  }

  function StripRight(s: string): string {
    if s != "" && Space(s[|s| - 1]) then StripRight(s[..|s| - 1]) else s
  }

  function Strip(s: string): string {
    StripRight(StripLeft(s))
  }

  predicate Word(s: string) {
    s != "" && forall i :: 0 <= i < |s| ==> !Space(s[i])
  }

  predicate Digit(c: char) {
    '0' <= c <= '9'
  }

  /** `isdigit` on ASCII text. */
  predicate Digits(s: string) {
    s != "" && forall i :: 0 <= i < |s| ==> Digit(s[i])
  }

  function DigitValue(c: char): nat
    requires Digit(c)
  {
    c as int - '0' as int
  }

  function ParseNat(s: string): nat
    requires forall i :: 0 <= i < |s| ==> Digit(s[i])
  {
    if s == "" then 0 else ParseNat(s[..|s| - 1]) * 10 + DigitValue(s[|s| - 1])
  }

  function ShowNat(n: nat): (s: string)
    ensures Digits(s)
  {
    var last := ['0' + (n % 10) as char];
    if n < 10 then last else ShowNat(n / 10) + last
  }

  lemma {:induction false} ParseShow(n: nat)
    ensures ParseNat(ShowNat(n)) == n
  {
    var s := ShowNat(n);
    if n < 10 {
      assert s[..0] == "";
    } else {
      ParseShow(n / 10);
      assert s[..|s| - 1] == ShowNat(n / 10);
    }
  }

  lemma {:induction false} StripLeftDrops(a: string, s: string)
    requires (forall i :: 0 <= i < |a| ==> Space(a[i])) && (s == "" || !Space(s[0]))
    ensures StripLeft(a + s) == s
  {
    if a == "" {
      assert a + s == s;
    } else {
      assert (a + s)[1..] == a[1..] + s;
      StripLeftDrops(a[1..], s);
    }
  }

  lemma {:induction false} StripRightDrops(s: string, b: string)
    requires (forall i :: 0 <= i < |b| ==> Space(b[i])) && (s == "" || !Space(s[|s| - 1]))
    ensures StripRight(s + b) == s
  {
    if b == "" {
      assert s + b == s;
    } else {
      assert (s + b)[..|s + b| - 1] == s + b[..|b| - 1];
      StripRightDrops(s, b[..|b| - 1]);
    }
  }

  /** Stripping takes white space off both ends and nothing else. */
  lemma StripDrops(a: string, s: string, b: string)
    requires forall i :: 0 <= i < |a| ==> Space(a[i])
    requires forall i :: 0 <= i < |b| ==> Space(b[i])
    requires s != "" && !Space(s[0]) && !Space(s[|s| - 1])
    ensures Strip(a + s + b) == s
  {
    assert a + s + b == a + (s + b);
    StripLeftDrops(a, s + b);
    StripRightDrops(s, b);
  }

  lemma StripDigits(s: string)
    requires Digits(s)
    ensures Strip(s) == s
  {
    assert !Space(s[0]) && !Space(s[|s| - 1]);
  }

  // ---------------------------------------------------------------------------
  // Fields
  // ---------------------------------------------------------------------------

  datatype Range = Range(minimum: nat, maximum: nat, sevenIsZero: bool)

  const MINUTES := Range(0, 59, false)
  const HOURS := Range(0, 23, false)
  const DAYS := Range(1, 31, false)
  const MONTHS := Range(1, 12, false)
  const WEEKDAYS := Range(0, 6, true)

  /** The loop of `_field_matches` over the stripped tokens. */
  function ScanTokens(value: nat, tokens: seq<string>, range: Range): Checked<bool> {
    if tokens == [] then Fine(false)
    else
      var token := Strip(tokens[0]);
      if token == "" then ScanTokens(value, tokens[1..], range)
      else if token == "*" then Fine(true)
      else if |token| >= 2 && token[..2] == "*/" then
        var step := token[2..];
        if !Digits(step) || ParseNat(step) == 0 then Invalid else Fine(value % ParseNat(step) == 0)
      else if Digits(token) then
        var parsed := ParseNat(token);
        var candidate := if range.sevenIsZero && parsed == 7 then 0 else parsed;
        if candidate < range.minimum || candidate > range.maximum then Invalid
        else if value == candidate then Fine(true)
        else ScanTokens(value, tokens[1..], range)
      else Invalid
  }

  function FieldMatches(value: nat, spec: string, range: Range): Checked<bool> {
    ScanTokens(value, Split(spec, ','), range)
  }

  // ---------------------------------------------------------------------------
  // What a field says
  // ---------------------------------------------------------------------------

  /** An entry of a list; the code skips those left empty. */
  datatype Token = Every | EveryNth(step: nat) | Value(v: nat) | Nothing

  type Field = seq<Token>

  function Show(t: Token): string {
    match t
    case Every => "*"
    case EveryNth(n) => "*/" + ShowNat(n)
    case Value(v) => ShowNat(v)
    case Nothing => ""
  }

  function Texts(f: Field): seq<string> {
    if f == [] then [] else [Show(f[0])] + Texts(f[1..])
  }

  /** The text of a field: its tokens, separated by commas. */
  function Render(f: Field): string
    requires f != []
  {
    if |f| == 1 then Show(f[0]) else Show(f[0]) + [','] + Render(f[1..])
  }

  function Normal(v: nat, range: Range): nat {
    if range.sevenIsZero && v == 7 then 0 else v
  }

  predicate TokenOk(t: Token, range: Range) {
    match t
    case Every => true
    case EveryNth(n) => n > 0
    case Value(v) => range.minimum <= Normal(v, range) <= range.maximum
    case Nothing => true
  }

  predicate TokensOk(f: Field, range: Range) {
    forall i :: 0 <= i < |f| ==> TokenOk(f[i], range)
  }

  /** A list of good tokens that is more than one empty entry. */
  predicate WellFormed(f: Field, range: Range) {
    f != [] && f != [Nothing] && TokensOk(f, range)
  }

  predicate Admits(t: Token, value: nat, range: Range) {
    match t
    case Every => true
    case EveryNth(n) => n > 0 && value % n == 0
    case Value(v) => Normal(v, range) == value
    case Nothing => false
  }

  /** The union of the tokens: what a list is meant to say. */
  ghost predicate AnyAdmits(f: Field, value: nat, range: Range) {
    exists i :: 0 <= i < |f| && Admits(f[i], value, range)
  }

  /** A literal, or nothing: when it does not match, the search goes on. */
  predicate Passes(t: Token) {
    t.Value? || t.Nothing?
  }

  predicate Literals(f: Field) {
    forall i :: 0 <= i < |f| ==> Passes(f[i])
  }

  /** How many tokens are looked at: up to and including the first `*` or step. */
  function Looked(f: Field): (n: nat)
    ensures n <= |f|
    ensures forall i :: 0 <= i < n - 1 ==> Passes(f[i])
    ensures if Literals(f) then n == |f| else n > 0 && !Passes(f[n - 1])
  {
    if f == [] then 0
    else if !Passes(f[0]) then 1
    else 1 + Looked(f[1..])
  }

  lemma {:induction false} SplitPlain(s: string, c: char)
    requires c !in s
    ensures Split(s, c) == [s]
  {
    if s != "" {
      SplitPlain(s[1..], c);
      assert [s[0]] + s[1..] == s;
    }
  }

  lemma {:induction false} SplitFirst(s: string, rest: string, c: char)
    requires c !in s
    ensures Split(s + [c] + rest, c) == [s] + Split(rest, c)
  {
    var t := s + [c] + rest;
    if s == "" {
      assert t[1..] == rest;
    } else {
      SplitFirst(s[1..], rest, c);
      assert t[1..] == s[1..] + [c] + rest;
      assert [s[0]] + s[1..] == s;
    }
  }

  lemma DigitsPlain(s: string, c: char)
    requires Digits(s) && !Digit(c)
    ensures c !in s
  {
  }

  lemma LiteralToken(n: nat)
    ensures Strip(ShowNat(n)) == ShowNat(n) && ShowNat(n) != "*" && ParseNat(ShowNat(n)) == n
    ensures |ShowNat(n)| >= 2 ==> ShowNat(n)[..2] != "*/"
  {
    StripDigits(ShowNat(n));
    ParseShow(n);
    assert Digit(ShowNat(n)[0]);
    assert "*"[0] == '*' && "*/"[0] == '*';
    if |ShowNat(n)| >= 2 {
      assert ShowNat(n)[..2][0] == ShowNat(n)[0];
    }
  }

  lemma StepToken(n: nat)
    ensures
      var s := "*/" + ShowNat(n);
      Split(s, ',') == [s] && Strip(s) == s && s != "*" && s[..2] == "*/" && s[2..] == ShowNat(n)
  {
    var s := "*/" + ShowNat(n);
    DigitsPlain(ShowNat(n), ',');
    SplitPlain(s, ',');
    assert Digit(ShowNat(n)[|ShowNat(n)| - 1]);
    assert s[|s| - 1] == ShowNat(n)[|ShowNat(n)| - 1];
    assert s[0] == '*';
  }

  lemma ShowPlain(t: Token)
    ensures (t != Nothing ==> Word(Show(t))) && ',' !in Show(t)
  {
    match t
    case Nothing =>
    case Every =>
    case EveryNth(n) => DigitsPlain(ShowNat(n), ',');
    case Value(v) => DigitsPlain(ShowNat(v), ',');
  }

  lemma {:induction false} SplitRender(f: Field)
    requires f != []
    ensures Split(Render(f), ',') == Texts(f)
  {
    ShowPlain(f[0]);
    if |f| == 1 {
      SplitPlain(Show(f[0]), ',');
      assert f[1..] == [];
    } else {
      SplitFirst(Show(f[0]), Render(f[1..]), ',');
      SplitRender(f[1..]);
    }
  }

  /** One token: a literal that does not match passes the search on, anything else ends it. */
  lemma ScanToken(value: nat, t: Token, rest: seq<string>, range: Range)
    requires TokenOk(t, range)
    ensures ScanTokens(value, [Show(t)] + rest, range) ==
            if Admits(t, value, range) then Fine(true)
            else if Passes(t) then ScanTokens(value, rest, range)
            else Fine(false)
  {
    assert ([Show(t)] + rest)[1..] == rest;
    match t
    case Nothing => assert Strip("") == "";
    case Every => assert Strip("*") == "*";
    case EveryNth(n) =>
      StepToken(n);
      ParseShow(n);
    case Value(v) => LiteralToken(v);
  }

  lemma AnyAdmitsStep(f: Field, value: nat, range: Range)
    requires f != []
    ensures AnyAdmits(f, value, range) <==> Admits(f[0], value, range) || AnyAdmits(f[1..], value, range)
  {
    if i :| 0 <= i < |f[1..]| && Admits(f[1..][i], value, range) {
      assert f[i + 1] == f[1..][i];
    }
    if i :| 0 < i < |f| && Admits(f[i], value, range) {
      assert f[1..][i - 1] == f[i];
    }
  }

  /** Does a token that is looked at admit the value? */
  ghost predicate Selects(f: Field, value: nat, range: Range) {
    AnyAdmits(f[..Looked(f)], value, range)
  }

  lemma SelectsStep(f: Field, value: nat, range: Range)
    requires f != []
    ensures Selects(f, value, range) <==>
            Admits(f[0], value, range) || (Passes(f[0]) && Selects(f[1..], value, range))
  {
    AnyAdmitsStep(f[..Looked(f)], value, range);
    if Passes(f[0]) {
      assert f[..Looked(f)][1..] == f[1..][..Looked(f[1..])];
    } else {
      assert f[..1][1..] == [];
    }
  }

  lemma LiteralsStep(f: Field)
    requires f != []
    ensures Literals(f) <==> Passes(f[0]) && Literals(f[1..])
  {
    if Passes(f[0]) && Literals(f[1..]) {
      forall i | 0 <= i < |f| ensures Passes(f[i]) {
        assert i > 0 ==> f[i] == f[1..][i - 1];
      }
    }
  }

  /** The search over a list of tokens, whatever texts `more` come after it. */
  lemma {:induction false} ScanField(value: nat, f: Field, more: seq<string>, range: Range)
    requires TokensOk(f, range)
    ensures ScanTokens(value, Texts(f) + more, range) ==
            if Selects(f, value, range) then Fine(true)
            else if Literals(f) then ScanTokens(value, more, range)
            else Fine(false)
  {
    if f == [] {
      assert Texts(f) + more == more;
    } else {
      var rest := Texts(f[1..]) + more;
      assert Texts(f) + more == [Show(f[0])] + rest;
      ScanToken(value, f[0], rest, range);
      SelectsStep(f, value, range);
      LiteralsStep(f);
      ScanField(value, f[1..], more, range);
    }
  }

  // The exact meaning of every list of tokens: the field matches iff a literal before the
  // first `*` or step token equals the value, or that first token admits it.  It never raises.
  lemma FieldSelects(value: nat, f: Field, range: Range)
    requires WellFormed(f, range)
    ensures FieldMatches(value, Render(f), range) == Fine(Selects(f, value, range))
  {
    SplitRender(f);
    ScanField(value, f, [], range);
    assert Texts(f) + [] == Texts(f);
  }

  lemma AnyAdmitsSplit(f: Field, n: nat, value: nat, range: Range)
    requires n <= |f|
    ensures AnyAdmits(f, value, range) <==> AnyAdmits(f[..n], value, range) || AnyAdmits(f[n..], value, range)
  {
    if i :| 0 <= i < |f| && Admits(f[i], value, range) {
      if i < n {
        assert f[..n][i] == f[i];
      } else {
        assert f[n..][i - n] == f[i];
      }
    }
    if i :| 0 <= i < |f[n..]| && Admits(f[n..][i], value, range) {
      assert f[n + i] == f[n..][i];
    }
  }

  /** A list means the union of its tokens at a value exactly when the tokens after the first
      `*` or step do not alone admit it. */
  lemma FieldIsUnionIff(value: nat, f: Field, range: Range)
    requires WellFormed(f, range)
    ensures FieldMatches(value, Render(f), range) == Fine(AnyAdmits(f, value, range)) <==>
            (AnyAdmits(f[Looked(f)..], value, range) ==> AnyAdmits(f[..Looked(f)], value, range))
  {
    FieldSelects(value, f, range);
    AnyAdmitsSplit(f, Looked(f), value, range);
  }

  /** The documented forms: a single token, or a list of values. */
  predicate Plain(f: Field) {
    |f| == 1 || Literals(f)
  }

  /** For `*`, a step or a list of in-range values, matching is membership in the union of
      the tokens, for every value. */
  lemma FieldDenotes(value: nat, f: Field, range: Range)
    requires WellFormed(f, range) && Plain(f)
    ensures FieldMatches(value, Render(f), range) == Fine(AnyAdmits(f, value, range))
  {
    FieldSelects(value, f, range);
    assert Looked(f) == |f| && f[..|f|] == f;
  }

  lemma Regroup<T>(a: seq<T>, b: seq<T>, c: seq<T>, d: seq<T>)
    ensures a + b + c + d == a + (b + c + d)
  {
  }

  lemma {:induction false} RenderThenMore(f: Field, rest: string)
    requires f != []
    ensures Split(Render(f) + [','] + rest, ',') == Texts(f) + Split(rest, ',')
  {
    ShowPlain(f[0]);
    if |f| == 1 {
      SplitFirst(Show(f[0]), rest, ',');
      assert f[1..] == [] && Texts(f) == [Show(f[0])];
    } else {
      RenderThenMore(f[1..], rest);
      SplitFirst(Show(f[0]), Render(f[1..]) + [','] + rest, ',');
      Regroup(Show(f[0]) + [','], Render(f[1..]), [','], rest);
      Regroup([Show(f[0])], Texts(f[1..]), [], Split(rest, ','));
      assert Texts(f) + [] == Texts(f) && Texts(f[1..]) + [] == Texts(f[1..]);
    }
  }

  // Wherever in a list `*` or a step token stands, what comes after it is not looked at:
  // not its values, and not even whether it is well formed.
  lemma LaterTokensHidden(value: nat, f: Field, rest: string, range: Range)
    requires WellFormed(f, range) && !Literals(f)
    ensures FieldMatches(value, Render(f) + [','] + rest, range) == FieldMatches(value, Render(f), range)
  {
    RenderThenMore(f, rest);
    ScanField(value, f, Split(rest, ','), range);
    FieldSelects(value, f, range);
  }

  // The list `5,*/2,7` at value 7: the last token alone admits it, and it is missed.
  lemma HiddenValue()
    ensures
      var f := [Value(5), EveryNth(2), Value(7)];
      AnyAdmits(f, 7, MINUTES) && FieldMatches(7, Render(f), MINUTES) == Fine(false)
  {
    var f := [Value(5), EveryNth(2), Value(7)];
    assert Admits(f[2], 7, MINUTES);
    FieldSelects(7, f, MINUTES);
    assert Looked(f) == 2;
    assert forall i :: 0 <= i < 2 ==> f[..2][i] == f[i];
  }

  // ---------------------------------------------------------------------------
  // Schedules
  // ---------------------------------------------------------------------------

  /** `expression.split()`: the maximal runs of other characters between spaces. */
  function Words(s: string): (words: seq<string>) {
    if s == "" then []
    else if Space(s[0]) then Words(s[1..])
    else
      var rest := Words(s[1..]);
      if |s| == 1 || Space(s[1]) || rest == [] then [[s[0]]] + rest
      else [[s[0]] + rest[0]] + rest[1..]
  }

  lemma {:induction false} OneWord(s: string)
    requires Word(s)
    ensures Words(s) == [s]
  {
    if |s| == 1 {
      assert Words(s[1..]) == [];
      assert [s[0]] == s;
    } else {
      OneWord(s[1..]);
      assert s[1] == s[1..][0];
      assert [s[0]] + s[1..] == s;
    }
  }

  /** Any white space ends a word. */
  lemma {:induction false} FirstWord(s: string, c: char, rest: string)
    requires Word(s) && Space(c)
    ensures Words(s + [c] + rest) == [s] + Words(rest)
  {
    var t := s + [c] + rest;
    if |s| == 1 {
      assert t[1..] == [c] + rest;
      assert ([c] + rest)[1..] == rest;
      assert [s[0]] == s;
    } else {
      FirstWord(s[1..], c, rest);
      assert t[1..] == s[1..] + [c] + rest;
      assert t[1] == s[1];
      assert [s[0]] + s[1..] == s;
    }
  }

  /** White space in front of a word does not count. */
  lemma LeadingSpace(c: char, rest: string)
    requires Space(c)
    ensures Words([c] + rest) == Words(rest) && Words("") == []
  {
    assert ([c] + rest)[1..] == rest;
  }

  /** A UTC instant, split by the calendar; the weekday counts from Sunday = 0. */
  datatype Moment = Moment(year: int, month: nat, day: nat, hour: nat, minute: nat, weekday: nat)

  /** `_slot_key`. */
  datatype Slot = Slot(year: int, month: nat, day: nat, hour: nat, minute: nat)

  function SlotOf(m: Moment): Slot {
    Slot(m.year, m.month, m.day, m.hour, m.minute)
  }

  datatype Schedule<T> = Schedule(minute: T, hour: T, day: T, month: T, weekday: T)

  /** `and`: the right operand is evaluated only when the left one holds. */
  function And(a: Checked<bool>, b: Checked<bool>): Checked<bool> {
    if a == Fine(true) then b else a
  }

  /** `CronSchedule.matches`. */
  function Matches(s: Schedule<string>, when: Moment): Checked<bool> {
    And(FieldMatches(when.minute, s.minute, MINUTES),
    And(FieldMatches(when.hour, s.hour, HOURS),
    And(FieldMatches(when.day, s.day, DAYS),
    And(FieldMatches(when.month, s.month, MONTHS),
        FieldMatches(when.weekday, s.weekday, WEEKDAYS)))))
  }

  /** Midnight of 1 January 2026, a Thursday: the instant the constructor tries. */
  const PROBE := Moment(2026, 1, 1, 0, 0, 4)

  /** `CronSchedule(expression)`. */
  function ParseCron(expression: string): Checked<Schedule<string>> {
    var parts := Words(expression);
    if |parts| != 5 then Invalid
    else
      var s := Schedule(parts[0], parts[1], parts[2], parts[3], parts[4]);
      if Matches(s, PROBE).Invalid? then Invalid else Fine(s)
  }

  predicate WellFormedSchedule(s: Schedule<Field>) {
    && WellFormed(s.minute, MINUTES) && WellFormed(s.hour, HOURS) && WellFormed(s.day, DAYS)
    && WellFormed(s.month, MONTHS) && WellFormed(s.weekday, WEEKDAYS)
  }

  ghost predicate Includes(s: Schedule<Field>, when: Moment) {
    && Selects(s.minute, when.minute, MINUTES) && Selects(s.hour, when.hour, HOURS)
    && Selects(s.day, when.day, DAYS) && Selects(s.month, when.month, MONTHS)
    && Selects(s.weekday, when.weekday, WEEKDAYS)
  }

  function Rendered(s: Schedule<Field>): Schedule<string>
    requires WellFormedSchedule(s)
  {
    Schedule(Render(s.minute), Render(s.hour), Render(s.day), Render(s.month), Render(s.weekday))
  }

  function Spaced(s: Schedule<string>): string {
    s.minute + [' '] + (s.hour + [' '] + (s.day + [' '] + (s.month + [' '] + s.weekday)))
  }

  lemma MatchesDenotes(s: Schedule<Field>, when: Moment)
    requires WellFormedSchedule(s)
    ensures Matches(Rendered(s), when) == Fine(Includes(s, when))
  {
    FieldSelects(when.minute, s.minute, MINUTES);
    FieldSelects(when.hour, s.hour, HOURS);
    FieldSelects(when.day, s.day, DAYS);
    FieldSelects(when.month, s.month, MONTHS);
    FieldSelects(when.weekday, s.weekday, WEEKDAYS);
  }

  lemma {:induction false} RenderHasNoSpace(f: Field)
    requires f != []
    ensures forall i :: 0 <= i < |Render(f)| ==> !Space(Render(f)[i])
  {
    ShowPlain(f[0]);
    if |f| > 1 {
      RenderHasNoSpace(f[1..]);
    }
  }

  lemma RenderIsAWord(f: Field)
    requires f != [] && f != [Nothing]
    ensures Word(Render(f))
  {
    ShowPlain(f[0]);
    RenderHasNoSpace(f);
  }

  lemma FiveWords(s: Schedule<string>)
    requires Word(s.minute) && Word(s.hour) && Word(s.day) && Word(s.month) && Word(s.weekday)
    ensures Words(Spaced(s)) == [s.minute, s.hour, s.day, s.month, s.weekday]
  {
    OneWord(s.weekday);
    FirstWord(s.month, ' ', s.weekday);
    FirstWord(s.day, ' ', s.month + [' '] + s.weekday);
    FirstWord(s.hour, ' ', s.day + [' '] + (s.month + [' '] + s.weekday));
    FirstWord(s.minute, ' ', s.hour + [' '] + (s.day + [' '] + (s.month + [' '] + s.weekday)));
  }

  /** The values each field takes, and that a weekday may be written 7 for 0. */
  lemma FieldRanges(v: nat, value: nat)
    ensures TokenOk(Value(v), MINUTES) <==> v <= 59
    ensures TokenOk(Value(v), HOURS) <==> v <= 23
    ensures TokenOk(Value(v), DAYS) <==> 1 <= v <= 31
    ensures TokenOk(Value(v), MONTHS) <==> 1 <= v <= 12
    ensures TokenOk(Value(v), WEEKDAYS) <==> v <= 7
    ensures Admits(Value(v), value, MINUTES) == Admits(Value(v), value, HOURS) == Admits(Value(v), value, DAYS)
            == Admits(Value(v), value, MONTHS) == (value == v)
    ensures Admits(Value(v), value, WEEKDAYS) <==> value == if v == 7 then 0 else v
  {
  }

  /** An expression is accepted only with exactly five words, which are the five fields in the
      order minute, hour, day, month, weekday. */
  lemma ParsedFields(expression: string)
    ensures
      var parsed := ParseCron(expression);
      parsed.Fine? ==>
        var s := parsed.value;
        && Words(expression) == [s.minute, s.hour, s.day, s.month, s.weekday]
        && Matches(s, Moment(2026, 1, 1, 0, 0, 4)).Fine?
    ensures ParseCron(expression).Invalid? && |Words(expression)| == 5 ==>
      var w := Words(expression);
      Matches(Schedule(w[0], w[1], w[2], w[3], w[4]), Moment(2026, 1, 1, 0, 0, 4)).Invalid?
  {
  }

  /** Fields are looked at in order, and the first that does not match decides: it says no or
      raises, whatever the later ones would. */
  lemma FirstFieldDecides(s: Schedule<string>, when: Moment)
    ensures
      var a := FieldMatches(when.minute, s.minute, MINUTES);
      var b := FieldMatches(when.hour, s.hour, HOURS);
      var c := FieldMatches(when.day, s.day, DAYS);
      var d := FieldMatches(when.month, s.month, MONTHS);
      var e := FieldMatches(when.weekday, s.weekday, WEEKDAYS);
      && (a != Fine(true) ==> Matches(s, when) == a)
      && (a == Fine(true) && b != Fine(true) ==> Matches(s, when) == b)
      && (a == b == Fine(true) && c != Fine(true) ==> Matches(s, when) == c)
      && (a == b == c == Fine(true) && d != Fine(true) ==> Matches(s, when) == d)
      && (a == b == c == d == Fine(true) ==> Matches(s, when) == e)
  {
  }

  /** What can stand in a list and is neither empty, `*`, a step nor a value of the range. */
  predicate Bad(text: string, range: Range) {
    && ',' !in text && text != "" && !Space(text[0]) && !Space(text[|text| - 1]) && text != "*"
    && (!Digits(text) || !TokenOk(Value(ParseNat(text)), range))
    && (|text| >= 2 && text[0] == '*' && text[1] == '/' ==> !Digits(text[2..]) || ParseNat(text[2..]) == 0)
  }

  lemma BadTokenScanned(value: nat, text: string, rest: seq<string>, range: Range)
    requires Bad(text, range)
    ensures ScanTokens(value, [text] + rest, range) == Invalid
  {
    assert Strip(text) == text;
    if |text| >= 2 {
      assert text[..2] == [text[0], text[1]] && "*/" == ['*', '/'];
    }
  }

  // A bad token raises, whatever follows it, unless the search has ended before it.
  lemma BadTokenRaises(value: nat, f: Field, text: string, range: Range)
    requires f != [] && TokensOk(f, range) && Bad(text, range)
    ensures FieldMatches(value, Render(f) + [','] + text, range) ==
            if Selects(f, value, range) then Fine(true) else if Literals(f) then Invalid else Fine(false)
    ensures FieldMatches(value, text, range) == Invalid
  {
    SplitPlain(text, ',');
    RenderThenMore(f, text);
    ScanField(value, f, [text], range);
    BadTokenScanned(value, text, [], range);
    assert [text] + [] == [text];
  }

  /** The text of a well-formed schedule is accepted, and the schedule read back from it
      matches exactly the moments whose five parts are all selected.  Day and weekday are
      both required. */
  lemma CronDenotes(s: Schedule<Field>, when: Moment)
    requires WellFormedSchedule(s)
    ensures ParseCron(Spaced(Rendered(s))) == Fine(Rendered(s))
    ensures Matches(Rendered(s), when) == Fine(Includes(s, when))
  {
    RenderIsAWord(s.minute);
    RenderIsAWord(s.hour);
    RenderIsAWord(s.day);
    RenderIsAWord(s.month);
    RenderIsAWord(s.weekday);
    FiveWords(Rendered(s));
    MatchesDenotes(s, PROBE);
    MatchesDenotes(s, when);
  }

  // ---------------------------------------------------------------------------
  // Emission
  // ---------------------------------------------------------------------------

  /** Times are in seconds. */
  function MinuteOf(t: int): (minute: int)
    ensures 60 * minute <= t < 60 * minute + 60
  {
    t / 60
  }

  /** The times at which polling emits: those in a due minute other than the minute of
      the previous emission. */
  function Emissions(due: int -> bool, times: seq<int>): seq<int> {
    if times == [] then []
    else
      var t := times[|times| - 1];
      var before := Emissions(due, times[..|times| - 1]);
      if due(MinuteOf(t)) && (before == [] || MinuteOf(before[|before| - 1]) != MinuteOf(t)) then before + [t]
      else before
  }

  ghost predicate Nondecreasing(times: seq<int>) {
    forall i, j :: 0 <= i < j < |times| ==> times[i] <= times[j]
  }

  ghost predicate MinutesIncrease(times: seq<int>) {
    forall i, j :: 0 <= i < j < |times| ==> MinuteOf(times[i]) < MinuteOf(times[j])
  }

  /** The first poll of a due minute. */
  ghost predicate FirstOfDue(due: int -> bool, times: seq<int>, i: nat) {
    && i < |times| && due(MinuteOf(times[i]))
    && forall k :: 0 <= k < i ==> MinuteOf(times[k]) != MinuteOf(times[i])
  }

  lemma MinutesAreMonotone(s: int, t: int)
    requires s <= t
    ensures MinuteOf(s) <= MinuteOf(t)
  {
  }

  ghost predicate Covered(due: int -> bool, times: seq<int>, i: nat) {
    && i < |times|
    && (due(MinuteOf(times[i])) ==>
          (exists j :: 0 <= j < |Emissions(due, times)| && MinuteOf(Emissions(due, times)[j]) == MinuteOf(times[i])))
  }

  ghost predicate AFirst(due: int -> bool, times: seq<int>, e: int) {
    exists i: nat :: FirstOfDue(due, times, i) && times[i] == e
  }

  ghost predicate EachAFirst(due: int -> bool, times: seq<int>, emitted: seq<int>) {
    forall j :: 0 <= j < |emitted| ==> AFirst(due, times, emitted[j])
  }

  ghost predicate AllCovered(due: int -> bool, times: seq<int>) {
    forall i :: 0 <= i < |times| ==> Covered(due, times, i)
  }

  /** Under a clock that never goes back, emitted minutes strictly increase, every emission
      is the first poll of a due minute, and every due minute polled is emitted. */
  lemma {:induction false} OncePerMinute(due: int -> bool, times: seq<int>)
    requires Nondecreasing(times)
    ensures MinutesIncrease(Emissions(due, times))
    ensures EachAFirst(due, times, Emissions(due, times))
    ensures AllCovered(due, times)
  {
    if times != [] {
      var front, t := times[..|times| - 1], times[|times| - 1];
      OncePerMinute(due, front);
      assert front + [t] == times;
      LastIsLatest(due, front, t);
      EmittedAreFirsts(due, front, t);
      EveryDueMinuteEmitted(due, times);
    }
  }

  lemma EmissionsStep(due: int -> bool, front: seq<int>, t: int)
    ensures
      var before := Emissions(due, front);
      Emissions(due, front + [t]) ==
      if due(MinuteOf(t)) && (before == [] || MinuteOf(before[|before| - 1]) != MinuteOf(t)) then before + [t]
      else before
  {
    assert (front + [t])[..|front|] == front;
  }

  lemma FirstStays(due: int -> bool, front: seq<int>, t: int, e: int)
    requires AFirst(due, front, e)
    ensures AFirst(due, front + [t], e)
  {
    var i: nat :| FirstOfDue(due, front, i) && front[i] == e;
    assert FirstOfDue(due, front + [t], i);
  }

  lemma LastIsLatest(due: int -> bool, front: seq<int>, t: int)
    requires Nondecreasing(front + [t])
    requires MinutesIncrease(Emissions(due, front)) && EachAFirst(due, front, Emissions(due, front))
    ensures MinutesIncrease(Emissions(due, front + [t]))
  {
    EmissionsStep(due, front, t);
    var before := Emissions(due, front);
    if before != [] {
      var e := before[|before| - 1];
      var i: nat :| FirstOfDue(due, front, i) && front[i] == e;
      assert (front + [t])[i] == e && (front + [t])[|front|] == t;
      MinutesAreMonotone(e, t);
      Extend(before, t);
    }
  }

  lemma Extend(before: seq<int>, t: int)
    requires before != [] && MinutesIncrease(before)
    ensures MinuteOf(before[|before| - 1]) < MinuteOf(t) ==> MinutesIncrease(before + [t])
  {
  }

  lemma EmittedAreFirsts(due: int -> bool, front: seq<int>, t: int)
    requires EachAFirst(due, front, Emissions(due, front)) && AllCovered(due, front)
    requires MinutesIncrease(Emissions(due, front + [t]))
    ensures EachAFirst(due, front + [t], Emissions(due, front + [t]))
  {
    EmissionsStep(due, front, t);
    var before, after := Emissions(due, front), Emissions(due, front + [t]);
    forall j | 0 <= j < |before| ensures AFirst(due, front + [t], before[j]) {
      FirstStays(due, front, t, before[j]);
    }
    if after != before {
      NewIsFirst(due, front, t);
    }
  }

  lemma LastDiffers(before: seq<int>, t: int, j: nat)
    requires MinutesIncrease(before + [t]) && j < |before|
    ensures MinuteOf(before[j]) != MinuteOf(t)
  {
    assert (before + [t])[j] == before[j] && (before + [t])[|before|] == t;
  }

  lemma NewIsFirst(due: int -> bool, front: seq<int>, t: int)
    requires Emissions(due, front + [t]) == Emissions(due, front) + [t] && due(MinuteOf(t))
    requires AllCovered(due, front)
    requires MinutesIncrease(Emissions(due, front + [t]))
    ensures AFirst(due, front + [t], t)
  {
    var before := Emissions(due, front);
    forall k | 0 <= k < |front| ensures MinuteOf(front[k]) != MinuteOf(t) {
      assert Covered(due, front, k);
      if MinuteOf(front[k]) == MinuteOf(t) {
        var j :| 0 <= j < |before| && MinuteOf(before[j]) == MinuteOf(front[k]);
        LastDiffers(before, t, j);
      }
    }
    assert FirstOfDue(due, front + [t], |front|);
  }

  lemma CoveredStays(due: int -> bool, front: seq<int>, t: int, i: nat)
    requires Covered(due, front, i)
    ensures Covered(due, front + [t], i)
  {
    EmissionsStep(due, front, t);
    if due(MinuteOf(front[i])) {
      var j :| 0 <= j < |Emissions(due, front)| && MinuteOf(Emissions(due, front)[j]) == MinuteOf(front[i]);
      assert Emissions(due, front + [t])[j] == Emissions(due, front)[j];
    }
  }

  lemma LastCovered(due: int -> bool, times: seq<int>)
    requires times != []
    ensures Covered(due, times, |times| - 1)
  {
    var t := times[|times| - 1];
    var all := Emissions(due, times);
    if due(MinuteOf(t)) {
      assert MinuteOf(all[|all| - 1]) == MinuteOf(t);
    }
  }

  // ----- when each minute is emitted once ---------------------------------------

  ghost predicate DistinctMinutes(times: seq<int>) {
    forall i, j :: 0 <= i < j < |times| ==> MinuteOf(times[i]) != MinuteOf(times[j])
  }

  /** Between two polls of one due minute no other due minute is polled. */
  ghost predicate Undisturbed(due: int -> bool, times: seq<int>) {
    forall i, j, k ::
      (0 <= i < j < k < |times| && due(MinuteOf(times[i])) && due(MinuteOf(times[j]))
       && MinuteOf(times[i]) == MinuteOf(times[k])) ==> MinuteOf(times[j]) == MinuteOf(times[i])
  }

  lemma {:induction false} EveryDueMinuteEmitted(due: int -> bool, times: seq<int>)
    ensures AllCovered(due, times)
  {
    if times != [] {
      var front, t := times[..|times| - 1], times[|times| - 1];
      assert front + [t] == times;
      EveryDueMinuteEmitted(due, front);
      forall i | 0 <= i < |times| ensures Covered(due, times, i) {
        if i < |front| {
          CoveredStays(due, front, t, i);
        } else {
          LastCovered(due, times);
        }
      }
    }
  }

  ghost predicate DuePoll(due: int -> bool, times: seq<int>, i: nat, e: int) {
    i < |times| && times[i] == e && due(MinuteOf(e))
  }

  /** Every emission is a poll of a due minute. */
  lemma {:induction false} EmissionIsDuePoll(due: int -> bool, times: seq<int>, j: nat) returns (i: nat)
    requires j < |Emissions(due, times)|
    ensures DuePoll(due, times, i, Emissions(due, times)[j])
  {
    var front := times[..|times| - 1];
    if j < |Emissions(due, front)| {
      i := EmissionIsDuePoll(due, front, j);
    } else {
      i := |front|;
    }
  }

  /** The last emission lies in the minute of the last due poll. */
  ghost predicate LastDue(due: int -> bool, times: seq<int>, l: nat) {
    && l < |times| && due(MinuteOf(times[l]))
    && (forall i :: l < i < |times| ==> !due(MinuteOf(times[i])))
  }

  lemma {:induction false} LastEmission(due: int -> bool, times: seq<int>) returns (l: nat)
    requires Emissions(due, times) != []
    ensures LastDue(due, times, l)
    ensures
      var es := Emissions(due, times);
      MinuteOf(es[|es| - 1]) == MinuteOf(times[l])
  {
    var n := |times| - 1;
    if due(MinuteOf(times[n])) {
      l := n;
    } else {
      l := LastEmission(due, times[..n]);
    }
  }

  lemma UndisturbedFront(due: int -> bool, front: seq<int>, t: int)
    requires Undisturbed(due, front + [t])
    ensures Undisturbed(due, front)
  {
    var times := front + [t];
    forall i, j, k | 0 <= i < j < k < |front| && due(MinuteOf(front[i])) && due(MinuteOf(front[j]))
                     && MinuteOf(front[i]) == MinuteOf(front[k])
      ensures MinuteOf(front[j]) == MinuteOf(front[i])
    {
      assert times[i] == front[i] && times[j] == front[j] && times[k] == front[k];
    }
  }

  /** What one more poll adds to the condition. */
  ghost predicate Returns(due: int -> bool, front: seq<int>, t: int) {
    exists i, j :: 0 <= i < j < |front| && due(MinuteOf(front[i])) && due(MinuteOf(front[j]))
                   && MinuteOf(front[i]) == MinuteOf(t) && MinuteOf(front[j]) != MinuteOf(t)
  }

  lemma UndisturbedStep(due: int -> bool, front: seq<int>, t: int)
    ensures Undisturbed(due, front + [t]) <==> Undisturbed(due, front) && !Returns(due, front, t)
  {
    var times := front + [t];
    if Undisturbed(due, times) {
      UndisturbedFront(due, front, t);
      forall i, j | 0 <= i < j < |front| && due(MinuteOf(front[i])) && due(MinuteOf(front[j]))
                    && MinuteOf(front[i]) == MinuteOf(t)
        ensures MinuteOf(front[j]) == MinuteOf(t)
      {
        assert times[i] == front[i] && times[j] == front[j] && times[|front|] == t;
      }
    }
    if Undisturbed(due, front) && !Returns(due, front, t) {
      forall i, j, k | 0 <= i < j < k < |times| && due(MinuteOf(times[i])) && due(MinuteOf(times[j]))
                       && MinuteOf(times[i]) == MinuteOf(times[k])
        ensures MinuteOf(times[j]) == MinuteOf(times[i])
      {
        assert times[i] == front[i] && times[j] == front[j];
        if k < |front| {
          assert times[k] == front[k];
        }
      }
    }
  }

  /** A poll in the minute of the last emission disturbs nothing. */
  lemma SameMinuteAgain(due: int -> bool, front: seq<int>, t: int, l: nat)
    requires Undisturbed(due, front) && LastDue(due, front, l) && MinuteOf(front[l]) == MinuteOf(t)
    ensures !Returns(due, front, t)
  {
    forall i, j | 0 <= i < j < |front| && due(MinuteOf(front[i])) && due(MinuteOf(front[j]))
                  && MinuteOf(front[i]) == MinuteOf(t)
      ensures MinuteOf(front[j]) == MinuteOf(t)
    {
      assert j <= l;
    }
  }

  /** A poll that emits repeats a minute exactly when it returns to it. */
  lemma NewMinute(due: int -> bool, front: seq<int>, t: int)
    requires due(MinuteOf(t))
    requires
      var before := Emissions(due, front);
      before == [] || MinuteOf(before[|before| - 1]) != MinuteOf(t)
    ensures
      var before := Emissions(due, front);
      Returns(due, front, t) <==> exists j :: 0 <= j < |before| && MinuteOf(before[j]) == MinuteOf(t)
  {
    var before := Emissions(due, front);
    EveryDueMinuteEmitted(due, front);
    if j :| 0 <= j < |before| && MinuteOf(before[j]) == MinuteOf(t) {
      var i := EmissionIsDuePoll(due, front, j);
      var l := LastEmission(due, front);
      assert i <= l && i != l;
      assert Returns(due, front, t);
    }
    if Returns(due, front, t) {
      var i, j :| 0 <= i < j < |front| && due(MinuteOf(front[i])) && due(MinuteOf(front[j]))
                  && MinuteOf(front[i]) == MinuteOf(t) && MinuteOf(front[j]) != MinuteOf(t);
      assert Covered(due, front, i);
    }
  }

  lemma DistinctStep(before: seq<int>, t: int)
    ensures DistinctMinutes(before + [t]) <==>
            DistinctMinutes(before) && !(exists j :: 0 <= j < |before| && MinuteOf(before[j]) == MinuteOf(t))
  {
    var after := before + [t];
    if DistinctMinutes(after) {
      forall i, j | 0 <= i < j < |before| ensures MinuteOf(before[i]) != MinuteOf(before[j]) {
        assert after[i] == before[i] && after[j] == before[j];
      }
      forall j | 0 <= j < |before| ensures MinuteOf(before[j]) != MinuteOf(t) {
        assert after[j] == before[j] && after[|before|] == t;
      }
    }
  }

  /** Whatever the poll times, each minute is emitted at most once exactly when no other due
      minute is polled between two polls of a due minute.  Every due minute polled is emitted
      in any case (EveryDueMinuteEmitted). */
  lemma {:induction false} OnceIff(due: int -> bool, times: seq<int>)
    ensures DistinctMinutes(Emissions(due, times)) <==> Undisturbed(due, times)
  {
    if times != [] {
      var front, t := times[..|times| - 1], times[|times| - 1];
      assert front + [t] == times;
      OnceIff(due, front);
      OnceStep(due, front, t);
    }
  }

  lemma OnceStep(due: int -> bool, front: seq<int>, t: int)
    requires DistinctMinutes(Emissions(due, front)) <==> Undisturbed(due, front)
    ensures DistinctMinutes(Emissions(due, front + [t])) <==> Undisturbed(due, front + [t])
  {
    UndisturbedStep(due, front, t);
    var before := Emissions(due, front);
    if due(MinuteOf(t)) && (before == [] || MinuteOf(before[|before| - 1]) != MinuteOf(t)) {
      NewMinuteStep(due, front, t);
    } else {
      QuietStep(due, front, t);
    }
  }

  lemma QuietStep(due: int -> bool, front: seq<int>, t: int)
    requires
      var before := Emissions(due, front);
      !due(MinuteOf(t)) || (before != [] && MinuteOf(before[|before| - 1]) == MinuteOf(t))
    ensures Emissions(due, front + [t]) == Emissions(due, front)
    ensures Undisturbed(due, front) ==> !Returns(due, front, t)
  {
    EmissionsStep(due, front, t);
    if due(MinuteOf(t)) {
      SameMinute(due, front, t);
    }
  }

  lemma NewMinuteStep(due: int -> bool, front: seq<int>, t: int)
    requires due(MinuteOf(t))
    requires
      var before := Emissions(due, front);
      before == [] || MinuteOf(before[|before| - 1]) != MinuteOf(t)
    ensures DistinctMinutes(Emissions(due, front + [t])) <==>
            DistinctMinutes(Emissions(due, front)) && !Returns(due, front, t)
  {
    EmissionsStep(due, front, t);
    NewMinute(due, front, t);
    DistinctStep(Emissions(due, front), t);
  }

  lemma SameMinute(due: int -> bool, front: seq<int>, t: int)
    requires
      var before := Emissions(due, front);
      before != [] && MinuteOf(before[|before| - 1]) == MinuteOf(t)
    ensures Undisturbed(due, front) ==> !Returns(due, front, t)
  {
    if Undisturbed(due, front) {
      var l := LastEmission(due, front);
      SameMinuteAgain(due, front, t, l);
    }
  }

  /** Only the last slot is remembered: a clock that steps back over another due minute
      emits a minute twice. */
  lemma BackwardClockRepeats(due: int -> bool, s: int, t: int)
    requires due(MinuteOf(s)) && due(MinuteOf(t)) && MinuteOf(s) != MinuteOf(t)
    ensures Emissions(due, [s, t, s]) == [s, t, s]
  {
    assert [s][..0] == [] && [s, t][..1] == [s] && [s, t, s][..2] == [s, t];
    assert Emissions(due, [s]) == [s];
    assert Emissions(due, [s, t]) == [s, t];
  }

  // ---------------------------------------------------------------------------
  // The adapter
  // ---------------------------------------------------------------------------

  class CronTriggerAdapter {
    const schedule: Schedule<string>
    const calendar: int -> Moment
    var lastEmittedSlot: Option<Slot>
    ghost const due: int -> bool
    ghost var polled: seq<int>
    ghost var emitted: seq<int>

    /** Different minutes have different slots. */
    ghost predicate Calendar() {
      forall a, b :: SlotOf(calendar(a)) == SlotOf(calendar(b)) ==> a == b
    }

    ghost predicate Valid()
      reads this
    {
      && Calendar()
      && (forall minute :: due(minute) <==> Matches(schedule, calendar(minute)) == Fine(true))
      && emitted == Emissions(due, polled)
      && lastEmittedSlot == (if emitted == [] then None else Some(SlotOf(calendar(MinuteOf(emitted[|emitted| - 1])))))
    }

    constructor (schedule: Schedule<string>, calendar: int -> Moment)
      requires forall a, b :: SlotOf(calendar(a)) == SlotOf(calendar(b)) ==> a == b
      ensures Valid() && polled == [] && this.schedule == schedule && this.calendar == calendar
    {
      this.schedule := schedule;
      this.calendar := calendar;
      due := (minute: int) => Matches(schedule, calendar(minute)) == Fine(true);
      lastEmittedSlot := None;
      polled, emitted := [], [];
    }

    /** `poll`: at most one dispatch, scheduled for the time of the poll.  A poll that
        raises emits nothing and changes nothing. */
    method Poll(now: int) returns (r: Checked<seq<int>>)
      requires Valid()
      modifies this
      ensures Valid() && polled == old(polled) + [now]
      ensures r.Invalid? <==> Matches(schedule, calendar(MinuteOf(now))).Invalid?
      ensures emitted == old(emitted) + (if r.Fine? then r.value else [])
      ensures r.Fine? ==> r.value == [] || r.value == [now]
    {
      polled := polled + [now];
      assert polled[..|polled| - 1] == old(polled);
      var current := calendar(MinuteOf(now));
      var matched := Matches(schedule, current);
      if matched.Invalid? {
        return Invalid;
      }
      if !matched.value {
        return Fine([]);
      }
      var slot := SlotOf(current);
      if Some(slot) == lastEmittedSlot {
        return Fine([]);
      }
      lastEmittedSlot := Some(slot);
      emitted := emitted + [now];
      return Fine([now]);
    }

    /** Poll at each of `times`, carrying on after a poll that raises. */
    method PollAll(times: seq<int>) returns (dispatches: seq<int>)
      requires Valid()
      modifies this
      ensures Valid() && polled == old(polled) + times
      ensures Emissions(due, old(polled)) + dispatches == Emissions(due, old(polled) + times)
    {
      dispatches := [];
      assert old(polled) + times[..0] == old(polled);
      for i := 0 to |times|
        invariant Valid() && polled == old(polled) + times[..i] && emitted == old(emitted) + dispatches
      {
        var r := Poll(times[i]);
        OneMore(old(polled), times, i);
        if r.Fine? {
          Regroup(old(emitted), dispatches, r.value, []);
          dispatches := dispatches + r.value;
        }
      }
      assert times[..|times|] == times;
    }
  }

  lemma OneMore(past: seq<int>, times: seq<int>, i: nat)
    requires i < |times|
    ensures past + times[..i] + [times[i]] == past + times[..i + 1]
  {
  }
}
