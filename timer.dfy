/** The timer mechanism of the Pomodoro window: the repetition counter, the
    self-rescheduling countdown, and the reset. Each `window.after` callback the
    program schedules is one explicit `Tick` here; the widgets are reduced to the
    text they hold. */
module Pomodoro {
  import opened Schedule
  import opened Display

  /** The heading label above the clock: "Timer" before any session and after a
      reset, otherwise the kind of the session running. */
  datatype Heading = TimerTitle | SessionTitle(kind: Session)

  /** The counts a session of length `d` has shown by the time it shows `r`:
      d, d-1, ..., r. */
  function Descending(d: nat, r: nat): (s: seq<nat>)
    requires r <= d
    ensures |s| == d - r + 1 && s[0] == d && s[|s| - 1] == r
    ensures forall i :: 0 <= i < |s| ==> s[i] == d - i
    decreases d - r
  {
    if r == d then [d] else Descending(d, r + 1) + [r]
  }

  /** The counts a session shows strictly decrease. */
  lemma DescendingStrictly(d: nat, r: nat)
    requires r <= d
    ensures forall i, j :: 0 <= i < j < |Descending(d, r)| ==> Descending(d, r)[i] > Descending(d, r)[j]
  {
  }

  class PomodoroTimer {
    /** The global repetition counter `reps`. */
    var reps: nat
    /** The count passed to the latest `count_down` call, i.e. the count shown. */
    var remaining: nat
    /** A `count_down(remaining - 1)` callback is scheduled and not yet run. */
    var pending: bool
    /** The global `timer` holds a handle (it is no longer None). */
    var hasTimer: bool
    /** The clock text on the canvas. */
    var display: string
    /** The heading label. */
    var heading: Heading
    /** The tally label. */
    var marks: string
    /** The counts shown so far by the current session. */
    ghost var shown: seq<nat>
    /** The counts shown by the latest session that ran down to 0. */
    ghost var finished: seq<nat>
    /** The kinds of the sessions started since the window opened or was last
        reset, oldest first. */
    ghost var history: seq<Session>

    /** A session is counting down and has shown everything from its full
        length down to the count on the clock. */
    ghost predicate Running()
      reads this
    {
      reps > 0 && pending && 0 < remaining <= Duration(Classify(reps))
      && display == Format(remaining)
      && heading == SessionTitle(Classify(reps))
      && shown == Descending(Duration(Classify(reps)), remaining)
    }

    /** Between events: either idle at a counter of 0 with the reset texts
        showing, or exactly one countdown running; the tally always shows
        floor(reps/2) marks. */
    ghost predicate Valid()
      reads this
    {
      (pending <==> reps > 0)
      && marks == Marks(reps / 2)
      && history == StartSequence(0, reps)
      && (reps == 0 ==> display == RESET_TEXT && heading == TimerTitle)
      && (reps > 0 ==> hasTimer && Running())
    }

    /** The state when the window opens. */
    constructor ()
      ensures Valid()
      ensures reps == 0 && !pending && !hasTimer
      ensures display == RESET_TEXT && heading == TimerTitle && marks == ""
      ensures shown == [] && finished == [] && history == []
    {
      reps := 0;
      remaining := 0;
      pending := false;
      hasTimer := false;
      display := RESET_TEXT;
      heading := TimerTitle;
      marks := "";
      shown := [];
      finished := [];
      history := [];
    }

    /** `start_timer`: advance the counter by one, then begin counting down
        the session the new counter selects. Only one countdown runs at a time,
        so nothing may be pending. */
    method Start()
      requires !pending
      modifies this
      decreases 1
      ensures reps == old(reps) + 1
      ensures remaining == Duration(Classify(reps))
      ensures Running() && hasTimer && shown == [remaining]
      ensures history == old(history) + [Classify(reps)]
      ensures marks == old(marks) && finished == old(finished)
      ensures old(Valid()) ==> Valid()
    {
      reps := reps + 1;
      shown := [];
      history := history + [Classify(reps)];
      var kind := Classify(reps);
      CountDown(Duration(kind));
      heading := SessionTitle(kind);
    }

    /** `count_down`: show `count`; while it is positive schedule the next
        count, `count - 1`; at 0 start the next session and refresh the tally. */
    method CountDown(count: nat)
      requires !pending
      modifies this
      decreases if count == 0 then 2 else 0
      ensures count > 0 ==>
        reps == old(reps) && remaining == count && pending && hasTimer
        && display == Format(count) && shown == old(shown) + [count]
        && heading == old(heading) && marks == old(marks) && finished == old(finished)
        && history == old(history)
      ensures count == 0 ==>
        reps == old(reps) + 1 && history == old(history) + [Classify(reps)] && remaining == Duration(Classify(reps))
        && Running() && hasTimer && shown == [remaining]
        && finished == old(shown) + [0] && marks == Marks(reps / 2)
    {
      display := Format(count);
      remaining := count;
      shown := shown + [count];
      if count > 0 {
        pending := true;
        hasTimer := true;
      } else {
        finished := shown;
        Start();
        marks := TallyMarks(reps);
      }
    }

    /** One scheduled callback fires after its second. With nothing pending
        nothing fires. A session's last tick shows 0, and the next session
        starts at once. */
    method Tick()
      requires Valid()
      modifies this
      ensures Valid()
      ensures !old(pending) ==> unchanged(this)
      ensures old(pending) && old(remaining) > 1 ==>
        reps == old(reps) && remaining == old(remaining) - 1
        && display == Format(remaining) && shown == old(shown) + [remaining]
        && heading == old(heading) && marks == old(marks) && finished == old(finished)
      ensures old(pending) && old(remaining) == 1 ==>
        reps == old(reps) + 1
        && finished == Descending(Duration(Classify(old(reps))), 0)
        && remaining == Duration(Classify(reps)) && display == Format(remaining)
        && heading == SessionTitle(Classify(reps)) && shown == [remaining]
        && marks == Marks(reps / 2)
    {
      if pending {
        ghost var d := Duration(Classify(reps));
        pending := false;
        if remaining > 1 {
          assert Descending(d, remaining - 1) == shown + [remaining - 1];
          CountDown(remaining - 1);
          assert Running();
        } else {
          assert shown + [0] == Descending(d, 0);
          CountDown(0);
        }
      }
    }

    /** `reset_timer`: cancel the pending callback, restore the start-up texts
        and set the counter back to 0. The global `timer` must already hold a
        handle. */
    method Reset()
      requires hasTimer
      modifies this
      ensures Valid()
      ensures reps == 0 && !pending && hasTimer
      ensures display == RESET_TEXT && heading == TimerTitle && marks == ""
      ensures remaining == old(remaining) && shown == [] && finished == old(finished)
      ensures history == []
    {
      pending := false;
      heading := TimerTitle;
      display := RESET_TEXT;
      marks := "";
      reps := 0;
      shown := [];
      history := [];
    }
  }

  /** Whenever a session is running, the tally holds one mark per work
      session completed since the window opened or was last reset. */
  lemma TallyCountsCompletedWork(t: PomodoroTimer)
    requires t.Valid() && t.reps > 0
    ensures |t.marks| == WorkCount(t.history[..t.reps - 1])
  {
    CompletedWork(t.reps);
    assert t.history[..t.reps - 1] == StartSequence(0, t.reps - 1);
  }

  /** After a reset the next start is a work session of 1500 seconds, just as
      the very first start is. */
  method ResetThenStart(t: PomodoroTimer)
    requires t.hasTimer
    modifies t
    ensures t.Valid() && t.reps == 1
    ensures t.heading == SessionTitle(Work) && t.remaining == 1500
    ensures t.display == "25:00" && t.marks == ""
  {
    t.Reset();
    t.Start();
    FormatExamples();
  }

  /** A fresh timer's first start is a work session of 1500 seconds. */
  method FirstStart() returns (t: PomodoroTimer)
    ensures fresh(t) && t.Valid() && t.reps == 1
    ensures t.heading == SessionTitle(Work) && t.remaining == 1500
    ensures t.display == "25:00" && t.marks == ""
  {
    t := new PomodoroTimer();
    t.Start();
    FormatExamples();
  }
}
