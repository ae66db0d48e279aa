/** src/components/VirtualCalculator.tsx: the exam's on-screen calculator — keypad
    entry into a display and an expression, clearing, backspace, the factorial key, the
    `^` rewrite before evaluation — and the timed drill whose counters are stored. */
module Calculator {
  import opened Common
  import opened Model
  import opened Storage

  // ---------------------------------------------------------------------------
  // Display text
  // ---------------------------------------------------------------------------

  /** `String(res).slice(0, 14)`. */
  function Slice14(s: string): (r: string)
    ensures |r| == if |s| <= 14 then |s| else 14
    ensures r == s[..|r|]
  {
    if |s| <= 14 then s else s[..14]
  }

  /** The operator token appended to the expression: `yroot` and `logbase` are padded
      with a space on each side, any other operator is appended as it is. */
  function OpToken(op: string): string {
    if op == "yroot" then " yroot " else if op == "logbase" then " logbase " else op
  }

  // ---------------------------------------------------------------------------
  // The `^` rewrite in handleEq
  // ---------------------------------------------------------------------------

  /** `finalExpr.replace(/\^/g, '**')`. */
  function ReplaceCarets(s: string): string {
    if s == [] then []
    else Rewritten(s[0]) + ReplaceCarets(s[1..])
  }

  /** What one character becomes. */
  function Rewritten(c: char): string {
    if c == '^' then "**" else [c]
  }

  /** No `^` survives, every one of them adds one character, and a text without any is
      left as it is. */
  lemma {:induction false} ReplaceCaretsSpec(s: string)
    ensures '^' !in ReplaceCarets(s)
    ensures |ReplaceCarets(s)| == |s| + Count(s, '^')
    ensures '^' !in s ==> ReplaceCarets(s) == s
  {
    if s != [] {
      ReplaceCaretsSpec(s[1..]);
      assert s == [s[0]] + s[1..];
    }
  }

  lemma ReplaceCaretsCons(c: char, x: string)
    ensures ReplaceCarets([c] + x) == Rewritten(c) + ReplaceCarets(x)
  {
    assert ([c] + x)[0] == c && ([c] + x)[1..] == x;
  }

  /** The rewrite works character by character, so it distributes over concatenation. */
  lemma {:induction false} ReplaceCaretsConcat(a: string, b: string)
    ensures ReplaceCarets(a + b) == ReplaceCarets(a) + ReplaceCarets(b)
  {
    if a != [] {
      ReplaceCaretsConcat(a[1..], b);
      ReplaceCaretsStep(a, b);
    } else {
      assert a + b == b;
    }
  }

  /** The step of `ReplaceCaretsConcat`: the first character of `a` is rewritten alike
      on both sides. */
  lemma ReplaceCaretsStep(a: string, b: string)
    requires a != [] && ReplaceCarets(a[1..] + b) == ReplaceCarets(a[1..]) + ReplaceCarets(b)
    ensures ReplaceCarets(a + b) == ReplaceCarets(a) + ReplaceCarets(b)
  {
    var c, x := a[0], a[1..];
    assert a == [c] + x;
    assert a + b == [c] + (x + b);
    ReplaceCaretsCons(c, x + b);
    ReplaceCaretsCons(c, x);
    SnocAssocStr(Rewritten(c), ReplaceCarets(x), ReplaceCarets(b));
  }

  lemma SnocAssocStr(h: string, y: string, z: string)
    ensures h + (y + z) == (h + y) + z
  {
  }

  /** Every `^` turns into `**` and every other character stays: reading the result
      back with `**` turned into `^` restores the input when it had no `*`. */
  function RestoreCarets(s: string): string {
    if s == [] then []
    else if |s| >= 2 && s[0] == '*' && s[1] == '*' then "^" + RestoreCarets(s[2..])
    else [s[0]] + RestoreCarets(s[1..])
  }

  lemma {:induction false} CaretsRoundTrip(s: string)
    requires '*' !in s
    ensures RestoreCarets(ReplaceCarets(s)) == s
  {
    if s != [] {
      CaretsRoundTrip(s[1..]);
      var t := ReplaceCarets(s[1..]);
      if s[0] == '^' {
        assert ReplaceCarets(s) == "**" + t;
        assert ("**" + t)[2..] == t;
      } else {
        assert ReplaceCarets(s) == [s[0]] + t;
        assert ([s[0]] + t)[1..] == t;
      }
    }
  }

  // ---------------------------------------------------------------------------
  // The factorial key
  // ---------------------------------------------------------------------------

  function Factorial(n: nat): nat {
    if n == 0 then 1 else n * Factorial(n - 1)
  }

  /** How many times `for (let i = 1; i <= val; i++)` runs: none for `NaN` or a value
      below 1, otherwise the value rounded down. */
  function Rounds(val: Option<real>): nat {
    if val.Some? && val.value >= 1.0 then val.value.Floor else 0
  }

  /** `let f = 1; for (let i = 1; i <= val; i++) f *= i;` on exact integers. */
  method Fact(val: Option<real>) returns (f: nat)
    ensures f == Factorial(Rounds(val))
  {
    f := 1;
    if val.None? {
      return;
    }
    var v := val.value;
    var i := 1;
    while (i as real) <= v
      invariant 1 <= i && f == Factorial(i - 1)
      invariant v >= 1.0 ==> i <= v.Floor + 1
      invariant v < 1.0 ==> i == 1
      decreases v.Floor + 1 - i
    {
      f := f * i;
      i := i + 1;
    }
  }

  // ---------------------------------------------------------------------------
  // The drill
  // ---------------------------------------------------------------------------

  function Abs(x: real): real { if x < 0.0 then -x else x }

  /** The drill's tolerance: within 0.01 absolutely or by 1% of the target. A target of 0
      makes the relative test `NaN` or infinite, which fails. */
  predicate IsCorrect(val: real, target: real) {
    Abs(val - target) < 0.01 || (target != 0.0 && Abs((val - target) / target) < 0.01)
  }

  /** The running average time over `correct + 1` right answers. */
  function NewAverage(avg: real, correct: int, t: real): (r: real)
    ensures correct + 1 != 0 ==> r * ((correct + 1) as real) == avg * (correct as real) + t
  {
    if correct + 1 == 0 then 0.0 else (avg * (correct as real) + t) / ((correct + 1) as real)
  }

  function Min(a: real, b: real): real { if a <= b then a else b }

  /** The counters after an answer: a right one counts towards attempts and right answers
      and may improve the best time, a wrong one only counts as an attempt. */
  function Answered(stats: DrillStats, correct: bool, t: real): (r: DrillStats)
    ensures r.totalAttempts == stats.totalAttempts + 1
    ensures r.correct == if correct then stats.correct + 1 else stats.correct
    ensures correct ==> r.bestTimeSec <= stats.bestTimeSec && r.bestTimeSec <= t
    ensures correct ==> (r.bestTimeSec == stats.bestTimeSec || r.bestTimeSec == t)
    ensures !correct ==> r.bestTimeSec == stats.bestTimeSec && r.avgTimeSec == stats.avgTimeSec
    ensures correct ==> r.avgTimeSec == NewAverage(stats.avgTimeSec, stats.correct, t)
    ensures correct && stats.correct + 1 != 0 ==>
      r.avgTimeSec * ((stats.correct + 1) as real) == stats.avgTimeSec * (stats.correct as real) + t
  {
    if correct then
      DrillStats(stats.totalAttempts + 1, stats.correct + 1, NewAverage(stats.avgTimeSec, stats.correct, t), Min(stats.bestTimeSec, t))
    else
      stats.(totalAttempts := stats.totalAttempts + 1)
  }

  predicate CountersSound(s: DrillStats) {
    0 <= s.correct <= s.totalAttempts
  }

  /** Answering keeps the right answers between 0 and the attempts. */
  lemma AnsweredKeepsSound(stats: DrillStats, correct: bool, t: real)
    requires CountersSound(stats)
    ensures CountersSound(Answered(stats, correct, t))
  {
  }

  /** The counters after a run of answers, each right or wrong with its time. */
  function Replay(stats: DrillStats, answers: seq<(bool, real)>): DrillStats
    decreases |answers|
  {
    if answers == [] then stats else Replay(Answered(stats, answers[0].0, answers[0].1), answers[1..])
  }

  /** The best time never increases over a run of answers. */
  lemma {:induction false} BestNeverRises(stats: DrillStats, answers: seq<(bool, real)>)
    ensures Replay(stats, answers).bestTimeSec <= stats.bestTimeSec
    ensures Replay(stats, answers).totalAttempts == stats.totalAttempts + |answers|
    decreases |answers|
  {
    if answers != [] {
      BestNeverRises(Answered(stats, answers[0].0, answers[0].1), answers[1..]);
    }
  }

  datatype Feedback = NoFeedback | CorrectIn(seconds: real) | Incorrect

  // ---------------------------------------------------------------------------
  // The calculator
  // ---------------------------------------------------------------------------

  class Calc {
    var display: string
    var expression: string
    var isNewTerm: bool
    var drillActive: bool
    var targetExpr: string
    var targetAnswer: real
    var startTime: int
    var feedback: Feedback
    var stats: DrillStats
    const store: Store

    /** The initial state and the mount effect, which reads the stored counters. */
    constructor (store: Store)
      ensures this.store == store && display == "0" && expression == "" && isNewTerm
      ensures !drillActive && feedback == NoFeedback && stats == GetCalcStats(store.data)
      ensures targetExpr == "" && targetAnswer == 0.0 && startTime == 0
    {
      this.store := store;
      display := "0";
      expression := "";
      isNewTerm := true;
      drillActive := false;
      targetExpr := "";
      targetAnswer := 0.0;
      startTime := 0;
      feedback := NoFeedback;
      stats := GetCalcStats(store.data);
    }

    /** `handleNum`: a new term starts with the key; otherwise a lone "0" gives way to any
        key but ".", and everything else is appended. */
    method HandleNum(num: string)
      modifies this
      ensures targetExpr == old(targetExpr) && targetAnswer == old(targetAnswer) && startTime == old(startTime) && feedback == old(feedback)
      ensures old(isNewTerm) ==> display == num && !isNewTerm
      ensures !old(isNewTerm) ==>
        isNewTerm == old(isNewTerm) && display == (if old(display) == "0" && num != "." then num else old(display) + num)
      ensures num != "" ==> display != ""
      ensures expression == old(expression) && stats == old(stats) && drillActive == old(drillActive)
    {
      if isNewTerm {
        display := num;
        isNewTerm := false;
      } else {
        display := if display == "0" && num != "." then num else display + num;
      }
    }

    /** `handleOp`: the display and the operator token move into the expression and a new
        term starts. */
    method HandleOp(op: string)
      modifies this
      ensures targetExpr == old(targetExpr) && targetAnswer == old(targetAnswer) && startTime == old(startTime) && feedback == old(feedback)
      ensures expression == old(expression) + old(display) + OpToken(op)
      ensures isNewTerm && display == old(display) && stats == old(stats) && drillActive == old(drillActive)
    {
      var opStr := op;
      if op == "yroot" {
        opStr := " yroot ";
      }
      if op == "logbase" {
        opStr := " logbase ";
      }
      expression := expression + display + opStr;
      isNewTerm := true;
    }

    /** `handleClear`: "C" (`all`) also empties the expression. */
    method HandleClear(all: bool)
      modifies this
      ensures targetExpr == old(targetExpr) && targetAnswer == old(targetAnswer) && startTime == old(startTime) && feedback == old(feedback)
      ensures display == "0" && isNewTerm
      ensures expression == if all then "" else old(expression)
      ensures stats == old(stats) && drillActive == old(drillActive)
    {
      display := "0";
      if all {
        expression := "";
      }
      isNewTerm := true;
    }

    /** `handleBackspace`: one character off, or back to "0" and a new term; the display is
        never left empty. */
    method HandleBackspace()
      modifies this
      ensures targetExpr == old(targetExpr) && targetAnswer == old(targetAnswer) && startTime == old(startTime) && feedback == old(feedback)
      ensures |old(display)| > 1 ==> display == old(display)[..|old(display)| - 1] && isNewTerm == old(isNewTerm)
      ensures |old(display)| <= 1 ==> display == "0" && isNewTerm
      ensures display != ""
      ensures expression == old(expression) && stats == old(stats) && drillActive == old(drillActive)
    {
      if |display| > 1 {
        display := display[..|display| - 1];
      } else {
        display := "0";
        isNewTerm := true;
      }
    }

    /** `generateDrill` once the question and its answer have been drawn. The new-term flag
        is left as it was. */
    method StartDrill(q: string, a: real, now: int)
      modifies this
      ensures drillActive && targetExpr == q && targetAnswer == a && startTime == now
      ensures feedback == NoFeedback && display == "0" && expression == ""
      ensures isNewTerm == old(isNewTerm) && stats == old(stats)
    {
      targetExpr := q;
      targetAnswer := a;
      startTime := now;
      feedback := NoFeedback;
      display := "0";
      expression := "";
      drillActive := true;
    }

    /** The "End Drill" button: only the drill flag is cleared; the target, the feedback
        and the statistics stay as they were. */
    method EndDrill()
      modifies this
      ensures !drillActive
      ensures display == old(display) && expression == old(expression) && isNewTerm == old(isNewTerm)
      ensures targetExpr == old(targetExpr) && targetAnswer == old(targetAnswer) && startTime == old(startTime)
      ensures feedback == old(feedback) && stats == old(stats)
    {
      drillActive := false;
    }

    /** `checkAnswer`: nothing without a drill; otherwise the counters are updated and
        stored (without a backup). The timer that starts the next drill is left out. */
    method CheckAnswer(val: real, now: int)
      requires store.Valid()
      modifies this, store
      ensures targetExpr == old(targetExpr)
      ensures store.Valid()
      ensures !old(drillActive) ==> stats == old(stats) && feedback == old(feedback) && store.data == old(store.data)
      ensures old(drillActive) ==>
        var t := ((now - old(startTime)) as real) / 1000.0;
        stats == Answered(old(stats), IsCorrect(val, old(targetAnswer)), t) &&
        feedback == (if IsCorrect(val, old(targetAnswer)) then CorrectIn(t) else Incorrect) &&
        store.data == old(store.data)[CalcStatsKey := CalcStatsValue(stats)]
      ensures CountersSound(old(stats)) ==> CountersSound(stats)
      ensures display == old(display) && expression == old(expression) && isNewTerm == old(isNewTerm)
      ensures drillActive == old(drillActive) && targetAnswer == old(targetAnswer) && startTime == old(startTime)
    {
      if !drillActive {
        return;
      }
      var timeTaken := ((now - startTime) as real) / 1000.0;
      var isCorrect := IsCorrect(val, targetAnswer);
      if isCorrect {
        feedback := CorrectIn(timeTaken);
        var newTotal := stats.totalAttempts + 1;
        var newCorrect := stats.correct + 1;
        var newAvg := NewAverage(stats.avgTimeSec, stats.correct, timeTaken);
        var newStats := DrillStats(newTotal, newCorrect, newAvg, Min(stats.bestTimeSec, timeTaken));
        stats := newStats;
        store.SaveCalcStats(newStats);
      } else {
        feedback := Incorrect;
        var newStats := stats.(totalAttempts := stats.totalAttempts + 1);
        stats := newStats;
        store.SaveCalcStats(newStats);
      }
    }

    /** The "n!" key. `val` is `parseFloat(display)` (`None` for `NaN`). */
    method HandleFact(val: Option<real>, now: int)
      requires store.Valid()
      modifies this, store
      ensures store.Valid()
      ensures display == Slice14(IntString(Factorial(Rounds(val)))) && isNewTerm
      ensures expression == old(expression) && drillActive == old(drillActive)
      ensures targetExpr == old(targetExpr) && targetAnswer == old(targetAnswer) && startTime == old(startTime)
      ensures !old(drillActive) ==> stats == old(stats) && feedback == old(feedback) && store.data == old(store.data)
      ensures old(drillActive) ==>
        var t := ((now - old(startTime)) as real) / 1000.0;
        var ok := IsCorrect(Factorial(Rounds(val)) as real, old(targetAnswer));
        stats == Answered(old(stats), ok, t) && feedback == (if ok then CorrectIn(t) else Incorrect) &&
        store.data == old(store.data)[CalcStatsKey := CalcStatsValue(stats)]
    {
      var res := Fact(val);
      var resStr := Slice14(IntString(res));
      display := resStr;
      isNewTerm := true;
      if drillActive {
        CheckAnswer(res as real, now);
      }
    }

    /** `handleEq`. `evaluate` stands for the `yroot`/`logbase` rewrites and `eval` on the
        text after the `^` rewrite: it gives the value and its `String()`, or `None` when
        evaluation throws, which shows "Error" and keeps the expression. */
    method HandleEq(evaluate: string -> Option<(real, string)>, now: int)
      requires store.Valid()
      modifies this, store
      ensures store.Valid()
      ensures drillActive == old(drillActive)
      ensures targetExpr == old(targetExpr) && targetAnswer == old(targetAnswer) && startTime == old(startTime)
      ensures evaluate(ReplaceCarets(old(expression) + old(display))).None? ==>
        display == "Error" && expression == old(expression) && isNewTerm == old(isNewTerm) &&
        stats == old(stats) && feedback == old(feedback) && store.data == old(store.data)
      ensures evaluate(ReplaceCarets(old(expression) + old(display))).Some? ==>
        var (res, text) := evaluate(ReplaceCarets(old(expression) + old(display))).value;
        var t := ((now - old(startTime)) as real) / 1000.0;
        display == Slice14(text) && expression == "" && isNewTerm &&
        (old(drillActive) ==>
          stats == Answered(old(stats), IsCorrect(res, old(targetAnswer)), t) &&
          feedback == (if IsCorrect(res, old(targetAnswer)) then CorrectIn(t) else Incorrect) &&
          store.data == old(store.data)[CalcStatsKey := CalcStatsValue(stats)]) &&
        (!old(drillActive) ==> stats == old(stats) && feedback == old(feedback) && store.data == old(store.data))
    {
      var finalExpr := expression + display;
      finalExpr := ReplaceCarets(finalExpr);
      var outcome := evaluate(finalExpr);
      if outcome.None? {
        display := "Error";
        return;
      }
      var (res, text) := outcome.value;
      display := Slice14(text);
      expression := "";
      isNewTerm := true;
      if drillActive {
        CheckAnswer(res, now);
      }
    }
  }
}
