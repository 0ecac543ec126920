/** The training-plan generator (frontend/app/api/generate-plan/route.ts and
    frontend/types/training.ts): the mock plan served when no API key is
    configured, and the parser that turns the language model's reply into
    weeks and days. The HTTP call to the model is a parameter. */
module TrainingPlans {
  import opened Common
  import opened Text
  import opened Lists

  /** `SkillLevel`. */
  datatype SkillLevel = Beginner | Intermediate | Advanced {
    function Name(): string {
      match this
      case Beginner => "beginner"
      case Intermediate => "intermediate"
      case Advanced => "advanced"
    }
  }

  /** `TrainingFormData`, the request body. */
  datatype TrainingFormData = TrainingFormData(
    age: int, gender: string, sport: string, skillLevel: SkillLevel,
    goals: string, injuryHistory: string, trainingDaysPerWeek: int)

  /** `TrainingPlan`: weeks of numbered days. */
  datatype Day = Day(dayNumber: int, content: string)
  datatype Week = Week(weekNumber: int, days: seq<Day>)
  datatype TrainingPlan = TrainingPlan(weeks: seq<Week>)

  /** The number a string of decimal digits spells, read left to right. */
  function DecimalValue(s: string): nat
    decreases |s|
  {
    if s == [] then 0
    else
      var c := s[|s| - 1];
      var digit := if '0' <= c <= '9' then c as int - '0' as int else 0;
      DecimalValue(s[..|s| - 1]) * 10 + digit
  }

  /** The decimal digits of `n`, as a template literal prints it: digits
      only, no leading zero, spelling `n`. */
  function NatToString(n: nat): (r: string)
    ensures |r| >= 1
    ensures forall k :: 0 <= k < |r| ==> '0' <= r[k] <= '9'
    ensures r[0] != '0' || r == "0"
    ensures DecimalValue(r) == n
    decreases n
  {
    var d := [(('0' as int) + n % 10) as char];
    if n < 10 then
      assert d[..0] == [];
      d
    else
      var h := NatToString(n / 10);
      assert (h + d)[..|h + d| - 1] == h;
      h + d
  }

  /** `Array.from({ length: n })` makes no elements for a negative `n`. */
  function ArrayLength(n: int): nat {
    if n < 0 then 0 else n
  }

  /** The first line of mock day `d`, up to the sport. */
  function DayHeading(d: nat): string {
    "Day " + NatToString(d) + " training for "
  }

  /** The middle of a mock day's text, around the skill level. */
  function Workout(level: SkillLevel): string {
    ":\n- Warm-up: 15 minutes dynamic stretching\n- Main workout: Focus on "
    + level.Name()
    + " level exercises\n- Cool-down: 10 minutes static stretching\n- Notes: "
  }

  /** The text of day `d` of the mock plan. */
  function MockContent(d: nat, form: TrainingFormData): string {
    DayHeading(d) + form.sport + Workout(form.skillLevel) + form.goals
  }

  /** Day `k + 1` of a mock week. */
  function MockDay(k: nat, form: TrainingFormData): (day: Day)
    ensures day.dayNumber == k + 1 && day.content == MockContent(k + 1, form)
  {
    Day(k + 1, MockContent(k + 1, form))
  }

  /** The days of every mock week: `n` of them (none for a negative `n`),
      numbered from 1. */
  function MockDays(n: int, form: TrainingFormData): (days: seq<Day>)
    ensures |days| == ArrayLength(n)
    ensures forall k :: 0 <= k < |days| ==> days[k] == MockDay(k, form)
  {
    seq(ArrayLength(n), k requires 0 <= k < ArrayLength(n) => MockDay(k, form))
  }

  /** `generateMockPlan`: four weeks numbered 1 to 4, each with
      `trainingDaysPerWeek` days numbered from 1. */
  function MockPlan(form: TrainingFormData): (p: TrainingPlan)
    ensures |p.weeks| == 4
    ensures forall w :: 0 <= w < 4 ==>
      p.weeks[w].weekNumber == w + 1 && p.weeks[w].days == MockDays(form.trainingDaysPerWeek, form)
  {
    var days := MockDays(form.trainingDaysPerWeek, form);
    TrainingPlan(seq(4, w requires 0 <= w < 4 => Week(w + 1, days)))
  }


  /** Every mock day names the sport the athlete gave. */
  lemma MockDayMentionsSport(form: TrainingFormData, d: nat)
    ensures Contains(MockContent(d, form), form.sport)
  {
    var head := DayHeading(d) + form.sport + Workout(form.skillLevel);
    ContainsPiece(DayHeading(d), form.sport, Workout(form.skillLevel));
    ContainsBefore(head, form.goals, form.sport);
  }

  /** Every mock day names the athlete's skill level. */
  lemma MockDayMentionsLevel(form: TrainingFormData, d: nat)
    ensures Contains(MockContent(d, form), form.skillLevel.Name())
  {
    ContainsPiece(
      ":\n- Warm-up: 15 minutes dynamic stretching\n- Main workout: Focus on ",
      form.skillLevel.Name(),
      " level exercises\n- Cool-down: 10 minutes static stretching\n- Notes: ");
    ContainsAfter(DayHeading(d) + form.sport, Workout(form.skillLevel), form.skillLevel.Name());
    ContainsBefore(DayHeading(d) + form.sport + Workout(form.skillLevel), form.goals, form.skillLevel.Name());
  }

  /** Every mock day ends with the athlete's goals. */
  lemma MockDayMentionsGoals(form: TrainingFormData, d: nat)
    ensures Contains(MockContent(d, form), form.goals)
  {
    var head := DayHeading(d) + form.sport + Workout(form.skillLevel);
    ContainsPiece(head, form.goals, "");
    assert head + form.goals + "" == MockContent(d, form);
  }

  /** A line the parser keeps: `line.trim()` is truthy. */
  predicate NonBlank(line: string) {
    !IsBlank(line)
  }

  /** `weekText.split('\n')`. */
  function Lines(weekText: string): (r: seq<string>)
    ensures |r| >= 1
  {
    Split(weekText, LineFeed)
  }

  const LineFeed: string := "\n"

  /** The separator between weeks: a blank line. */
  const ParagraphBreak: string := "\n\n"

  /** The non-blank lines of one week's text. */
  function KeptLines(weekText: string): (r: seq<string>)
    ensures forall line :: line in r <==> line in Lines(weekText) && NonBlank(line)
  {
    Filter(Lines(weekText), NonBlank)
  }

  /** The kept lines are the split lines with the blank ones left out, in
      their order. */
  lemma KeptLinesAreLines(weekText: string)
    ensures IsSubsequence(KeptLines(weekText), Lines(weekText))
    ensures forall k :: 0 <= k < |KeptLines(weekText)| ==> NonBlank(KeptLines(weekText)[k])
  {
    FilterIsSubsequence(Lines(weekText), NonBlank);
    var r := KeptLines(weekText);
    forall k | 0 <= k < |r| ensures NonBlank(r[k]) {
      assert r[k] in r;
    }
  }

  /** The days made of kept lines: each trimmed, numbered from 1. */
  function DaysOf(lines: seq<string>): (days: seq<Day>)
    ensures |days| == |lines|
    ensures forall k :: 0 <= k < |days| ==> days[k] == Day(k + 1, Trim(lines[k]))
  {
    seq(|lines|, k requires 0 <= k < |lines| => Day(k + 1, Trim(lines[k])))
  }

  /** One week of the parsed reply: its non-blank lines, trimmed, numbered
      from 1. */
  function ParseWeek(weekText: string, index: nat): (w: Week)
    ensures w.weekNumber == index + 1
    ensures |w.days| == |KeptLines(weekText)|
  {
    Week(index + 1, DaysOf(KeptLines(weekText)))
  }

  /** A parsed week has one day per non-blank line, in order, numbered
      1..k, holding the trimmed line, which is never empty. */
  lemma ParsedWeekDays(weekText: string, index: nat)
    ensures forall k :: 0 <= k < |ParseWeek(weekText, index).days| ==>
      && ParseWeek(weekText, index).days[k].dayNumber == k + 1
      && ParseWeek(weekText, index).days[k].content == Trim(KeptLines(weekText)[k])
      && ParseWeek(weekText, index).days[k].content != []
  {
    var lines := KeptLines(weekText);
    KeptLinesAreLines(weekText);
    forall k | 0 <= k < |lines| ensures DaysOf(lines)[k].content != [] {
      assert NonBlank(lines[k]);
      BlankIffTrimEmpty(lines[k]);
    }
  }

  /** The parser of the model's reply: one week per paragraph (pieces
      between blank-line separators `\n\n`), numbered from 1. */
  function ParsePlan(text: string): (p: TrainingPlan)
    ensures |p.weeks| == |Split(text, ParagraphBreak)| >= 1
    ensures forall i :: 0 <= i < |p.weeks| ==> p.weeks[i] == ParseWeek(Split(text, ParagraphBreak)[i], i)
  {
    var pieces := Split(text, ParagraphBreak);
    TrainingPlan(seq(|pieces|, i requires 0 <= i < |pieces| => ParseWeek(pieces[i], i)))
  }

  /** A day text the parser reproduces: one non-empty line that is its
      own trim. */
  predicate CleanLine(c: string) {
    c != [] && '\n' !in c && !IsSpace(c[0]) && !IsSpace(c[|c| - 1])
  }

  /** A clean line is its own trim, so the parser keeps it unchanged. */
  lemma CleanLineIsTrimmed(c: string)
    requires CleanLine(c)
    ensures Trim(c) == c && NonBlank(c)
  {
    TrimOfTrimmed(c);
  }

  /** A plan in the shape the parser produces from well-behaved text:
      weeks and days numbered consecutively from 1, every day one clean
      line, and at least one week. */
  predicate WellNumbered(p: TrainingPlan) {
    && |p.weeks| >= 1
    && (forall i :: 0 <= i < |p.weeks| ==> p.weeks[i].weekNumber == i + 1)
    && (forall i, k :: 0 <= i < |p.weeks| && 0 <= k < |p.weeks[i].days| ==>
          p.weeks[i].days[k].dayNumber == k + 1 && CleanLine(p.weeks[i].days[k].content))
  }

  /** The text of one week: its days, one per line. */
  function WeekText(w: Week): string {
    Join(Contents(w), LineFeed)
  }

  /** A plan written out the way the parser reads it: weeks separated by a
      blank line. */
  function Render(p: TrainingPlan): string {
    Join(seq(|p.weeks|, i requires 0 <= i < |p.weeks| => WeekText(p.weeks[i])), ParagraphBreak)
  }

  /** No two line feeds in a row and no line feed at the end: the text
      has no blank-line separator inside it. */
  predicate NoBlankLine(x: string) {
    && (forall i :: 0 <= i < |x| - 1 ==> !(x[i] == '\n' && x[i + 1] == '\n'))
    && (x == [] || x[|x| - 1] != '\n')
  }

  /** A text without a blank line survives the split at blank lines. */
  lemma NoBlankLineSurvives(x: string)
    requires NoBlankLine(x)
    ensures SeparatorFree(x, ParagraphBreak)
  {
    forall i | 0 <= i < |x|
      ensures !StartsWith((x + ParagraphBreak)[i..], ParagraphBreak)
    {
      assert (x + ParagraphBreak)[i..][0] == x[i];
      if i + 1 < |x| {
        assert (x + ParagraphBreak)[i..][1] == x[i + 1];
      }
    }
  }

  /** Clean lines joined by line feeds contain no blank line, and the
      text of at least one line does not start with a line feed. */
  lemma {:induction false} JoinedCleanLines(lines: seq<string>)
    requires forall k :: 0 <= k < |lines| ==> CleanLine(lines[k])
    ensures NoBlankLine(Join(lines, LineFeed))
    ensures lines != [] ==> Join(lines, LineFeed) != [] && Join(lines, LineFeed)[0] != '\n'
    decreases |lines|
  {
    if |lines| > 1 {
      var a := lines[0];
      var b := Join(lines[1..], LineFeed);
      JoinedCleanLines(lines[1..]);
      var x := a + LineFeed + b;
      assert Join(lines, LineFeed) == x;
      forall i | 0 <= i < |x| - 1 ensures !(x[i] == '\n' && x[i + 1] == '\n') {
        if i < |a| {
          assert x[i] == a[i];
        } else if i > |a| {
          assert x[i] == b[i - |a| - 1] && x[i + 1] == b[i - |a|];
        } else {
          assert x[i + 1] == b[0];
        }
      }
      assert x[|x| - 1] == b[|b| - 1];
    }
  }

  /** The day texts of a week. */
  function Contents(w: Week): (r: seq<string>)
    ensures |r| == |w.days|
    ensures forall k :: 0 <= k < |r| ==> r[k] == w.days[k].content
  {
    seq(|w.days|, k requires 0 <= k < |w.days| => w.days[k].content)
  }

  /** An empty week's text keeps no line. */
  lemma KeptLinesOfEmpty()
    ensures KeptLines("") == []
  {
    assert Lines("") == [""];
    assert !NonBlank("");
    assert Filter([""], NonBlank) == Filter([], NonBlank);
  }

  /** The lines kept from a rendered week are its day texts. */
  lemma KeptLinesOfWeekText(lines: seq<string>)
    requires forall k :: 0 <= k < |lines| ==> CleanLine(lines[k])
    ensures KeptLines(Join(lines, LineFeed)) == lines
  {
    if |lines| == 0 {
      KeptLinesOfEmpty();
    } else {
      SplitCleanLines(lines);
      forall k | 0 <= k < |lines| ensures NonBlank(lines[k]) {
        CleanLineIsTrimmed(lines[k]);
      }
      FilterKeepsAll(lines, NonBlank);
    }
  }

  /** Splitting clean lines joined by line feeds gives them back. */
  lemma SplitCleanLines(lines: seq<string>)
    requires |lines| >= 1
    requires forall k :: 0 <= k < |lines| ==> CleanLine(lines[k])
    ensures Lines(Join(lines, LineFeed)) == lines
  {
    forall k | 0 <= k < |lines| ensures SeparatorFree(lines[k], LineFeed) {
      FirstCharAbsent(lines[k], LineFeed);
    }
    SplitJoinFreeOf(lines, LineFeed);
  }

  /** Parsing one rendered week gives it back. */
  lemma ParseWeekText(w: Week, index: nat)
    requires w.weekNumber == index + 1
    requires forall k :: 0 <= k < |w.days| ==> w.days[k].dayNumber == k + 1 && CleanLine(w.days[k].content)
    ensures ParseWeek(WeekText(w), index) == w
  {
    KeptLinesOfWeekText(Contents(w));
    DaysOfCleanLines(w);
  }

  /** The days read back from a week's clean day texts are its days. */
  lemma DaysOfCleanLines(w: Week)
    requires forall k :: 0 <= k < |w.days| ==> w.days[k].dayNumber == k + 1 && CleanLine(w.days[k].content)
    ensures DaysOf(Contents(w)) == w.days
  {
    var v := DaysOf(Contents(w));
    forall k | 0 <= k < |w.days| ensures v[k] == w.days[k] {
      DayOfCleanLine(w, k);
    }
  }

  /** One day read back from a clean day text is that day. */
  lemma DayOfCleanLine(w: Week, k: nat)
    requires k < |w.days| && w.days[k].dayNumber == k + 1 && CleanLine(w.days[k].content)
    ensures DaysOf(Contents(w))[k] == w.days[k]
  {
    TrimOfTrimmed(w.days[k].content);
  }


  /** The parser is a left inverse of rendering on well-numbered plans of
      clean lines: what it reads back is exactly the plan written. */
  lemma ParseRenderRoundTrip(p: TrainingPlan)
    requires WellNumbered(p)
    ensures ParsePlan(Render(p)) == p
  {
    var texts := seq(|p.weeks|, i requires 0 <= i < |p.weeks| => WeekText(p.weeks[i]));
    forall i | 0 <= i < |texts| ensures SeparatorFree(texts[i], ParagraphBreak) {
      var w := p.weeks[i];
      JoinedCleanLines(Contents(w));
      NoBlankLineSurvives(texts[i]);
    }
    SplitJoinFreeOf(texts, ParagraphBreak);
    var q := ParsePlan(Render(p));
    assert |q.weeks| == |p.weeks|;
    forall i | 0 <= i < |p.weeks| ensures q.weeks[i] == p.weeks[i] {
      ParseWeekText(p.weeks[i], i);
    }
  }

  /** What the model call returned: a reply text, or a failure (a non-OK
      response, a network error, or a body without a first choice). */
  datatype Reply = Failed | Replied(text: string)

  /** `POST /api/generate-plan`. Without an API key (unset or empty) the
      mock plan is served and the model is never asked; otherwise the
      reply is parsed, and any failure becomes 500 "Failed to generate
      training plan". */
  function GeneratePlan(form: TrainingFormData, apiKey: Option<string>, ask: string -> Reply): (r: Result<TrainingPlan>)
    ensures !Present(apiKey) ==> r == Ok(MockPlan(form))
    ensures Present(apiKey) && ask(apiKey.value).Failed? ==>
      r == Err(ServerError("Failed to generate training plan"))
    ensures Present(apiKey) && ask(apiKey.value).Replied? ==> r == Ok(ParsePlan(ask(apiKey.value).text))
  {
    if !Present(apiKey) then Ok(MockPlan(form))
    else match ask(apiKey.value)
      case Failed => Err(ServerError("Failed to generate training plan"))
      case Replied(text) => Ok(ParsePlan(text))
  }

  /** Whatever the model answers, a configured key yields a plan whose
      weeks and days are numbered consecutively from 1, and with no key the
      response never depends on the model. */
  lemma GeneratedPlanNumbering(form: TrainingFormData, apiKey: Option<string>, ask: string -> Reply, ask2: string -> Reply)
    ensures !Present(apiKey) ==> GeneratePlan(form, apiKey, ask) == GeneratePlan(form, apiKey, ask2)
    ensures GeneratePlan(form, apiKey, ask).Ok? ==>
      var p := GeneratePlan(form, apiKey, ask).value;
      forall i, k :: 0 <= i < |p.weeks| && 0 <= k < |p.weeks[i].days| ==>
        p.weeks[i].weekNumber == i + 1 && p.weeks[i].days[k].dayNumber == k + 1
  {
  }
}
