/** The session scheduler of the Pomodoro timer: which kind of session a
    repetition count selects, and how long that session lasts. */
module Schedule {

  /** Session lengths in minutes, as configured at the top of main.py. */
  const WORK_MIN: nat := 25
  const SHORT_BREAK_MIN: nat := 5
  const LONG_BREAK_MIN: nat := 20

  datatype Session = Work | ShortBreak | LongBreak

  /** The session started when the repetition counter has just become `reps`.
      The multiple-of-8 test is made before the even test. */
  function Classify(reps: nat): (k: Session)
    ensures k == LongBreak <==> reps % 8 == 0
    ensures k == ShortBreak <==> reps % 2 == 0 && reps % 8 != 0
    ensures k == Work <==> reps % 2 == 1
  {
    if reps % 8 == 0 then LongBreak
    else if reps % 2 == 0 then ShortBreak
    else Work
  }

  /** Length in seconds of a session of kind `k`. */
  function Duration(k: Session): (d: nat)
    ensures d > 0 && d % 60 == 0
  {
    match k
    case Work => WORK_MIN * 60
    case ShortBreak => SHORT_BREAK_MIN * 60
    case LongBreak => LONG_BREAK_MIN * 60
  }

  lemma DurationValues()
    ensures Duration(Work) == 1500
    ensures Duration(ShortBreak) == 300
    ensures Duration(LongBreak) == 1200
  {
  }

  /** Different kinds of session last different lengths of time, so the
      duration alone tells which session is running. */
  lemma DurationInjective(k1: Session, k2: Session)
    ensures Duration(k1) == Duration(k2) ==> k1 == k2
  {
  }

  /** The kinds of the sessions chosen by `n` consecutive starts when the
      counter stands at `from` before the first of them. */
  function StartSequence(from: nat, n: nat): (r: seq<Session>)
    ensures |r| == n
    ensures forall i :: 0 <= i < n ==> r[i] == Classify(from + i + 1)
  {
    if n == 0 then [] else StartSequence(from, n - 1) + [Classify(from + n)]
  }

  /** One full cycle of sessions, starting from a counter of 0. */
  const CYCLE: seq<Session> :=
    [Work, ShortBreak, Work, ShortBreak, Work, ShortBreak, Work, LongBreak]

  lemma FirstCycle()
    ensures StartSequence(0, 8) == CYCLE
  {
  }

  /** Advancing the counter by any multiple of 8 selects the same session. */
  lemma {:induction false} ClassifyPeriod(reps: nat, m: nat)
    ensures Classify(reps + 8 * m) == Classify(reps)
  {
    if m > 0 {
      ClassifyPeriod(reps, m - 1);
      assert reps + 8 * m == (reps + 8 * (m - 1)) + 8;
    }
  }

  /** The i-th start from a counter of 0 selects CYCLE[i % 8]: the pattern of
      the first cycle repeats forever with period 8. */
  lemma ClassifyCycle(i: nat)
    ensures Classify(i + 1) == CYCLE[i % 8]
  {
  }

  lemma CyclePattern(n: nat)
    ensures forall i :: 0 <= i < n ==> StartSequence(0, n)[i] == CYCLE[i % 8]
  {
    forall i | 0 <= i < n
      ensures StartSequence(0, n)[i] == CYCLE[i % 8]
    {
      ClassifyCycle(i);
    }
  }

  /** Number of work sessions in a sequence of sessions. */
  function WorkCount(s: seq<Session>): (c: nat)
    ensures c <= |s|
  {
    if s == [] then 0
    else WorkCount(s[..|s| - 1]) + (if s[|s| - 1] == Work then 1 else 0)
  }

  /** Of the first `n` sessions from a counter of 0, exactly ceil(n/2) are
      work sessions. */
  lemma {:induction false} WorkCountFromZero(n: nat)
    ensures WorkCount(StartSequence(0, n)) == (n + 1) / 2
  {
    if n > 0 {
      WorkCountFromZero(n - 1);
      assert StartSequence(0, n)[..n - 1] == StartSequence(0, n - 1);
    }
  }

  /** When the counter has just been advanced to `reps`, the sessions before the
      current one contain floor(reps/2) work sessions: the number of marks the
      tally shows is the number of completed work sessions. */
  lemma CompletedWork(reps: nat)
    requires reps >= 1
    ensures WorkCount(StartSequence(0, reps - 1)) == reps / 2
  {
    WorkCountFromZero(reps - 1);
  }
}
