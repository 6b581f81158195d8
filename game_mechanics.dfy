/** The capture state machine of the `useGameMechanics` hook.

    The hook keeps its state in React state variables and refs and advances it
    from an animation-frame loop (entry mode), a one-second interval (capture
    mode) and three effects that react to the `isInsideRadius` prop. Here each
    firing is an explicit call: `EnterRadius`, `EntryFrame(elapsedMs, lookup)`,
    `CaptureTick` and `LeaveRadius`. Each call folds in the effect runs that
    the change triggers. Entry progress is kept in integer milliseconds: a
    progress of `p` stands for the fraction `p / EntryDurationMs`.

    The transition functions below (`...Spec`) are the specification; the
    class `CaptureMachine` holds the same state in fields and proves each of
    its methods against them. */
module GameMechanics {
  import opened Wrappers
  import Config

  /** ENTRY_DURATION in milliseconds. */
  const EntryDurationMs: nat := Config.EntryDurationSeconds * 1000
  /** The daily ceiling the hook hard-codes (it does not read MAX_CAPTURE_SECONDS). */
  const DailyLimitSeconds: nat := 60
  /** The most a single claim can hold: a full minute plus its bonus. */
  const MaxClaimSeconds: nat := DailyLimitSeconds + Config.MinuteBonusSeconds

  /** The hook's state. `entryPending` is a scheduled animation frame,
      `intervalRunning` the capture interval, `claims` the amounts passed to
      `onSaveClaim`, oldest first. */
  datatype Machine = Machine(
    insideRadius: bool,
    entryProgressMs: nat,
    entryPending: bool,
    captureActive: bool,
    captureSeconds: nat,
    sessionSeconds: nat,
    dailySeconds: nat,
    intervalRunning: bool,
    claims: seq<nat>)

  /** State on mount, before the position is known to be inside a radius. */
  function Initial(): Machine {
    Machine(false, 0, false, false, 0, 0, 0, false, [])
  }

  /** Bonus added on a tick whose new counter value is `newSeconds`. */
  function MinuteBonus(newSeconds: nat): nat {
    if newSeconds % 60 == 0 then Config.MinuteBonusSeconds else 0
  }

  /** Capture activation and the capture effect's start branch: the counter
      continues from the seconds already claimed today, the session starts at 0. */
  function StartCapture(m: Machine): Machine {
    m.(captureActive := true, intervalRunning := true,
       captureSeconds := m.dailySeconds, sessionSeconds := 0)
  }

  /** `isInsideRadius` becomes true; entry mode starts only when capture is
      inactive and progress is exactly 0. */
  function EnterRadiusSpec(m: Machine): Machine {
    if m.insideRadius then m
    else if !m.captureActive && m.entryProgressMs == 0 then
      m.(insideRadius := true, entryPending := true)
    else
      m.(insideRadius := true)
  }

  /** One animation frame, `elapsedMs` after entry started. `lookup` is what
      the daily-seconds lookup reports at entry completion: `None` when there
      is no user or no active POI (no lookup is made), `Some(s)` when `s`
      seconds were already claimed today at this POI. */
  function EntryFrameSpec(m: Machine, elapsedMs: nat, lookup: Option<nat>): Machine
    requires m.entryPending
  {
    if elapsedMs < EntryDurationMs then
      m.(entryProgressMs := elapsedMs)
    else
      var done := m.(entryProgressMs := EntryDurationMs, entryPending := false);
      match lookup
      case None => StartCapture(done)
      case Some(s) =>
        if s >= DailyLimitSeconds then done.(dailySeconds := s)
        else StartCapture(done.(dailySeconds := s))
  }

  /** One firing of the capture interval. Reaching the ceiling clears the
      interval, forgets it and saves the session total. Capture stays active
      and the session changed, so the capture effect runs again and takes
      its start branch: a new interval, the counter back at the daily
      seconds and the session at 0. */
  function CaptureTickSpec(m: Machine): Machine
    requires m.intervalRunning
  {
    var c := m.captureSeconds + 1;
    var s := m.sessionSeconds + 1 + MinuteBonus(c);
    if c >= DailyLimitSeconds then
      StartCapture(m.(claims := m.claims + [s]))
    else
      m.(captureSeconds := c, sessionSeconds := s)
  }

  /** `isInsideRadius` becomes false. The entry effect resets progress,
      deactivates capture and cancels the frame; the leave effect saves the
      session if capture was active and something was earned; the capture
      effect then stops a running interval and zeroes the counters. */
  function LeaveRadiusSpec(m: Machine): Machine {
    if !m.insideRadius then m
    else
      var saved := if m.captureActive && m.sessionSeconds > 0
                   then m.claims + [m.sessionSeconds] else m.claims;
      var reset := m.(insideRadius := false, entryProgressMs := 0, entryPending := false,
                      captureActive := false, claims := saved);
      if m.intervalRunning then
        reset.(intervalRunning := false, captureSeconds := 0, sessionSeconds := 0, dailySeconds := 0)
      else
        reset
  }

  /** The facts every reachable state satisfies. */
  ghost predicate Inv(m: Machine) {
    && m.entryProgressMs <= EntryDurationMs
    && (!m.insideRadius ==>
          m.entryProgressMs == 0 && !m.entryPending && !m.captureActive && !m.intervalRunning)
    && (m.entryPending ==> !m.captureActive && m.entryProgressMs < EntryDurationMs)
    && (m.captureActive ==> m.entryProgressMs == EntryDurationMs)
    && (m.intervalRunning ==>
          && m.captureActive
          && m.dailySeconds <= m.captureSeconds
          && m.sessionSeconds == m.captureSeconds - m.dailySeconds
          && (m.captureSeconds < DailyLimitSeconds || m.sessionSeconds == 0))
    && m.sessionSeconds <= MaxClaimSeconds
    && (forall i :: 0 <= i < |m.claims| ==> 0 < m.claims[i] <= MaxClaimSeconds)
  }

  // ---------------------------------------------------------------------------
  // The invariant holds initially and every transition keeps it
  // ---------------------------------------------------------------------------

  lemma InitialInv()
    ensures Inv(Initial())
  {
  }

  lemma EnterRadiusInv(m: Machine)
    requires Inv(m)
    ensures Inv(EnterRadiusSpec(m))
  {
  }

  lemma EntryFrameInv(m: Machine, elapsedMs: nat, lookup: Option<nat>)
    requires Inv(m) && m.entryPending
    ensures Inv(EntryFrameSpec(m, elapsedMs, lookup))
  {
  }

  lemma CaptureTickInv(m: Machine)
    requires Inv(m) && m.intervalRunning
    ensures Inv(CaptureTickSpec(m))
  {
  }

  lemma LeaveRadiusInv(m: Machine)
    requires Inv(m)
    ensures Inv(LeaveRadiusSpec(m))
  {
  }

  // ---------------------------------------------------------------------------
  // Arbitrary runs
  // ---------------------------------------------------------------------------

  /** One input to the hook. A frame or tick that is not scheduled does not fire. */
  datatype Event = Enter | Frame(elapsedMs: nat, lookup: Option<nat>) | Tick | Leave

  function Step(m: Machine, e: Event): Machine {
    match e
    case Enter => EnterRadiusSpec(m)
    case Frame(t, l) => if m.entryPending then EntryFrameSpec(m, t, l) else m
    case Tick => if m.intervalRunning then CaptureTickSpec(m) else m
    case Leave => LeaveRadiusSpec(m)
  }

  function Run(m: Machine, events: seq<Event>): Machine
    decreases |events|
  {
    if events == [] then m else Run(Step(m, events[0]), events[1..])
  }

  /** Whatever the inputs, the invariant holds after every run from mount: in
      particular no claim is ever 0 and none exceeds a minute plus its bonus,
      and claims are only ever appended. */
  lemma {:induction false} RunKeepsInv(m: Machine, events: seq<Event>)
    requires Inv(m)
    ensures Inv(Run(m, events))
    ensures m.claims <= Run(m, events).claims
    decreases |events|
  {
    if events != [] {
      var m' := Step(m, events[0]);
      match events[0] {
        case Enter => EnterRadiusInv(m);
        case Frame(t, l) => if m.entryPending { EntryFrameInv(m, t, l); }
        case Tick => if m.intervalRunning { CaptureTickInv(m); }
        case Leave => LeaveRadiusInv(m);
      }
      RunKeepsInv(m', events[1..]);
    }
  }

  /** Every amount handed to `onSaveClaim` in any run from mount is positive
      and at most 70 seconds. */
  lemma ClaimsFromMountBounded(events: seq<Event>)
    ensures forall i :: 0 <= i < |Run(Initial(), events).claims| ==>
              0 < Run(Initial(), events).claims[i] <= MaxClaimSeconds
  {
    RunKeepsInv(Initial(), events);
  }

  // ---------------------------------------------------------------------------
  // Entry mode
  // ---------------------------------------------------------------------------

  /** Entering a radius with capture inactive and no progress schedules the
      entry loop; the loop's frames set progress to min(elapsed, duration)
      and the loop stops exactly when progress reaches the full duration. */
  lemma EntryProgressFollowsClock(m: Machine, elapsedMs: nat, lookup: Option<nat>)
    requires m.entryPending
    ensures EntryFrameSpec(m, elapsedMs, lookup).entryProgressMs
              == (if elapsedMs < EntryDurationMs then elapsedMs else EntryDurationMs)
    ensures EntryFrameSpec(m, elapsedMs, lookup).entryPending <==> elapsedMs < EntryDurationMs
    ensures EntryFrameSpec(m, elapsedMs, lookup).claims == m.claims
  {
  }

  /** For a clock that does not run backwards, progress never decreases. */
  lemma EntryProgressMonotone(m: Machine, t1: nat, t2: nat, lookup: Option<nat>)
    requires m.entryPending && t1 <= t2 && t1 < EntryDurationMs
    ensures EntryFrameSpec(m, t1, lookup).entryPending
    ensures EntryFrameSpec(EntryFrameSpec(m, t1, lookup), t2, lookup).entryProgressMs
              >= EntryFrameSpec(m, t1, lookup).entryProgressMs
  {
  }

  /** Entry starts only inside the radius, with capture inactive and
      progress exactly 0. */
  lemma EntryStartsOnlyFromRest(m: Machine)
    requires Inv(m)
    ensures (EnterRadiusSpec(m).entryPending && !m.entryPending)
              ==> !m.insideRadius && !m.captureActive && m.entryProgressMs == 0
    ensures !m.insideRadius ==> EnterRadiusSpec(m).entryPending
  {
  }

  /** The state a completed entry leaves when the lookup reports the daily
      limit already reached. */
  ghost predicate Blocked(m: Machine) {
    m.insideRadius && m.entryProgressMs == EntryDurationMs && !m.entryPending
    && !m.captureActive && !m.intervalRunning
  }

  /** With a user and a POI, completing entry when `seconds >= 60` were
      already claimed today does not activate capture; with fewer it does and
      the counter starts from `seconds`, the session from 0. */
  lemma DailyLimitGate(m: Machine, elapsedMs: nat, seconds: nat)
    requires Inv(m) && m.entryPending && elapsedMs >= EntryDurationMs
    ensures var r := EntryFrameSpec(m, elapsedMs, Some(seconds));
            && (seconds >= DailyLimitSeconds ==> Blocked(r) && r.claims == m.claims)
            && (seconds < DailyLimitSeconds ==>
                  r.captureActive && r.intervalRunning
                  && r.captureSeconds == seconds && r.sessionSeconds == 0)
  {
  }

  /** Without a user or POI no lookup happens and capture always starts. */
  lemma NoLookupStartsCapture(m: Machine, elapsedMs: nat)
    requires Inv(m) && m.entryPending && elapsedMs >= EntryDurationMs
    ensures var r := EntryFrameSpec(m, elapsedMs, None);
            r.captureActive && r.intervalRunning && r.sessionSeconds == 0
            && r.captureSeconds == m.dailySeconds
  {
  }

  /** A blocked entry does not restart while the position stays inside the
      radius, whatever further frames, ticks or re-entries arrive; only
      leaving the radius rearms it. */
  lemma {:induction false} BlockedStaysBlocked(m: Machine, events: seq<Event>)
    requires Inv(m) && Blocked(m)
    requires forall i :: 0 <= i < |events| ==> events[i] != Leave
    ensures Run(m, events) == m
    decreases |events|
  {
    if events != [] {
      assert events[0] != Leave;
      assert Step(m, events[0]) == m;
      BlockedStaysBlocked(m, events[1..]);
    }
  }

  /** After leaving, re-entering the radius starts a fresh entry. */
  lemma LeaveRearmsEntry(m: Machine)
    requires Inv(m) && m.insideRadius
    ensures EnterRadiusSpec(LeaveRadiusSpec(m)).entryPending
    ensures EnterRadiusSpec(LeaveRadiusSpec(m)).entryProgressMs == 0
  {
  }

  // ---------------------------------------------------------------------------
  // Capture mode
  // ---------------------------------------------------------------------------

  /** `k` ticks of the capture interval (a tick that is not scheduled does
      not fire). */
  function Ticks(m: Machine, k: nat): Machine
    decreases k
  {
    if k == 0 || !m.intervalRunning then m else Ticks(CaptureTickSpec(m), k - 1)
  }

  /** Each tick below the ceiling adds exactly 1 to both counters and saves
      nothing: `k` such ticks from a running capture add `k` to each. */
  lemma {:induction false} TicksBelowLimit(m: Machine, k: nat)
    requires Inv(m) && m.intervalRunning && m.captureSeconds + k < DailyLimitSeconds
    ensures Ticks(m, k) == m.(captureSeconds := m.captureSeconds + k,
                              sessionSeconds := m.sessionSeconds + k)
    decreases k
  {
    if k > 0 {
      var m' := CaptureTickSpec(m);
      assert m' == m.(captureSeconds := m.captureSeconds + 1, sessionSeconds := m.sessionSeconds + 1);
      CaptureTickInv(m);
      TicksBelowLimit(m', k - 1);
    }
  }

  /** A capture started from `seed < 60` seconds already claimed today
      completes after exactly `60 - seed` ticks with one claim of
      `70 - seed` seconds (the seconds of the session plus the minute
      bonus), and the restart leaves every other field as it was when the
      capture started: counter at `seed`, session 0, interval running. */
  lemma {:induction false} CaptureCompletes(m: Machine)
    requires Inv(m) && m.intervalRunning && m.sessionSeconds == 0
    requires m.captureSeconds < DailyLimitSeconds
    ensures var seed := m.captureSeconds;
            Ticks(m, DailyLimitSeconds - seed) == m.(claims := m.claims + [MaxClaimSeconds - seed])
  {
    var seed := m.captureSeconds;
    var k := DailyLimitSeconds - seed - 1;
    TicksBelowLimit(m, k);
    var before := Ticks(m, k);
    assert before.captureSeconds == DailyLimitSeconds - 1 && before.sessionSeconds == k;
    TicksAdd(m, k, 1);
    var last := CaptureTickSpec(before);
    assert last == m.(claims := m.claims + [MaxClaimSeconds - seed]);
    assert Ticks(before, 1) == Ticks(last, 0) == last;
  }

  lemma {:induction false} TicksAdd(m: Machine, a: nat, b: nat)
    ensures Ticks(m, a + b) == Ticks(Ticks(m, a), b)
    decreases a
  {
    if a > 0 && m.intervalRunning {
      TicksAdd(CaptureTickSpec(m), a - 1, b);
    }
  }

  /** The two worked examples: nothing claimed yet gives a 70-second claim
      after 60 ticks; 55 seconds claimed gives 15 seconds after 5 ticks. */
  lemma CaptureExamples(m: Machine)
    requires Inv(m) && m.intervalRunning && m.sessionSeconds == 0
    ensures m.captureSeconds == 0 ==> Ticks(m, 60).claims == m.claims + [70]
    ensures m.captureSeconds == 55 ==> Ticks(m, 5).claims == m.claims + [15]
  {
    if m.captureSeconds < DailyLimitSeconds {
      CaptureCompletes(m);
    }
  }

  /** The minute bonus fires on the tick that reaches a multiple of 60 and on
      no other: from a counter of 57 the session grows by 1, 1 and then 11,
      which the third tick saves. */
  lemma BonusEdgeTriggered(m: Machine)
    requires Inv(m) && m.intervalRunning && m.captureSeconds == 57
    ensures Ticks(m, 1).sessionSeconds == m.sessionSeconds + 1
    ensures Ticks(m, 2).sessionSeconds == m.sessionSeconds + 2
    ensures Ticks(m, 3).claims == m.claims + [m.sessionSeconds + 13]
  {
    TicksBelowLimit(m, 1);
    TicksBelowLimit(m, 2);
    TicksAdd(m, 2, 1);
  }

  // ---------------------------------------------------------------------------
  // Leaving the radius
  // ---------------------------------------------------------------------------

  /** Leaving mid-capture, `k` ticks after a capture started, saves exactly
      the `k` seconds earned (nothing when `k` is 0), stops the interval and
      resets progress and counters. */
  lemma LeaveMidCapture(m: Machine, k: nat)
    requires Inv(m) && m.intervalRunning && m.sessionSeconds == 0
    requires m.captureSeconds + k < DailyLimitSeconds
    ensures var r := LeaveRadiusSpec(Ticks(m, k));
            && r.claims == (if k > 0 then m.claims + [k] else m.claims)
            && !r.intervalRunning && !r.captureActive && !r.entryPending
            && r.entryProgressMs == 0
            && r.captureSeconds == 0 && r.sessionSeconds == 0 && r.dailySeconds == 0
  {
    TicksBelowLimit(m, k);
  }

  /** Leaving before any second was earned (during entry, right after a
      blocked entry, or before the first tick) saves nothing. */
  lemma LeaveWithNothingEarned(m: Machine)
    requires Inv(m) && (!m.captureActive || m.sessionSeconds == 0)
    ensures LeaveRadiusSpec(m).claims == m.claims
    ensures !LeaveRadiusSpec(m).captureActive && !LeaveRadiusSpec(m).entryPending
    ensures LeaveRadiusSpec(m).entryProgressMs == 0
  {
  }

  /** As written, completion restarts the capture: leaving right after it
      saves nothing more, but staying inside claims the same `70 - seed`
      seconds again after another `60 - seed` ticks, and so on. With nothing
      claimed yet, 120 ticks save 70 twice. */
  lemma CompletionClaimsAgain(m: Machine)
    requires Inv(m) && m.intervalRunning && m.sessionSeconds == 0
    requires m.captureSeconds < DailyLimitSeconds
    ensures var d := DailyLimitSeconds - m.captureSeconds;
            var total := MaxClaimSeconds - m.captureSeconds;
            && LeaveRadiusSpec(Ticks(m, d)).claims == m.claims + [total]
            && Ticks(m, d + d).claims == m.claims + [total, total]
    ensures m.captureSeconds == 0 ==> Ticks(m, 120).claims == m.claims + [70, 70]
  {
    var d := DailyLimitSeconds - m.captureSeconds;
    var total := MaxClaimSeconds - m.captureSeconds;
    CaptureCompletes(m);
    var once := Ticks(m, d);
    assert Inv(once);
    CaptureCompletes(once);
    TicksAdd(m, d, d);
    assert once.claims + [total] == m.claims + [total, total];
  }

  // ---------------------------------------------------------------------------
  // Completion as evidently intended: the session is saved once
  // ---------------------------------------------------------------------------

  /** The capture tick with completion ending the capture: after the session
      total is saved, capture is deactivated and the session cleared, so the
      leave effect finds nothing left to save. */
  function CaptureTickCorrected(m: Machine): Machine
    requires m.intervalRunning
  {
    var c := m.captureSeconds + 1;
    var s := m.sessionSeconds + 1 + MinuteBonus(c);
    if c >= DailyLimitSeconds then
      m.(captureSeconds := c, sessionSeconds := 0, captureActive := false,
         intervalRunning := false, claims := m.claims + [s])
    else
      m.(captureSeconds := c, sessionSeconds := s)
  }

  function StepCorrected(m: Machine, e: Event): Machine {
    match e
    case Tick => if m.intervalRunning then CaptureTickCorrected(m) else m
    case _ => Step(m, e)
  }

  function RunCorrected(m: Machine, events: seq<Event>): Machine
    decreases |events|
  {
    if events == [] then m else RunCorrected(StepCorrected(m, events[0]), events[1..])
  }

  function TicksCorrected(m: Machine, k: nat): Machine
    decreases k
  {
    if k == 0 || !m.intervalRunning then m else TicksCorrected(CaptureTickCorrected(m), k - 1)
  }

  lemma CaptureTickCorrectedInv(m: Machine)
    requires Inv(m) && m.intervalRunning
    ensures Inv(CaptureTickCorrected(m))
    ensures |CaptureTickCorrected(m).claims| > |m.claims| ==> Blocked(CaptureTickCorrected(m))
  {
  }

  /** The state of a visit in which at most one claim beyond the first `n`
      has been saved, and after that claim nothing can be earned. */
  ghost predicate SavedAtMostOnce(m: Machine, n: nat) {
    Inv(m) && m.insideRadius && (|m.claims| == n || (|m.claims| == n + 1 && Blocked(m)))
  }

  lemma {:induction false} VisitKeepsSavedAtMostOnce(m: Machine, n: nat, events: seq<Event>)
    requires SavedAtMostOnce(m, n)
    requires forall i :: 0 <= i < |events| ==> events[i] != Leave
    ensures SavedAtMostOnce(RunCorrected(m, events), n)
    ensures m.claims <= RunCorrected(m, events).claims
    decreases |events|
  {
    if events != [] {
      var e := events[0];
      assert e != Leave;
      if e.Frame? && m.entryPending {
        EntryFrameInv(m, e.elapsedMs, e.lookup);
      }
      if e.Tick? && m.intervalRunning {
        CaptureTickCorrectedInv(m);
      }
      VisitKeepsSavedAtMostOnce(StepCorrected(m, e), n, events[1..]);
    }
  }

  /** With the corrected completion, one visit (entering the radius, any
      frames, ticks and re-entries, then leaving) saves at most one claim. */
  lemma CorrectedVisitSavesAtMostOnce(m: Machine, events: seq<Event>)
    requires Inv(m) && !m.insideRadius
    requires forall i :: 0 <= i < |events| ==> events[i] != Leave
    ensures var r := LeaveRadiusSpec(RunCorrected(EnterRadiusSpec(m), events));
            m.claims <= r.claims && |r.claims| <= |m.claims| + 1
  {
    EnterRadiusInv(m);
    VisitKeepsSavedAtMostOnce(EnterRadiusSpec(m), |m.claims|, events);
  }

  lemma {:induction false} CorrectedTicksComplete(m: Machine, k: nat)
    requires Inv(m) && m.intervalRunning && k > 0 && m.captureSeconds + k == DailyLimitSeconds
    ensures TicksCorrected(m, k)
              == m.(captureSeconds := DailyLimitSeconds, sessionSeconds := 0,
                    captureActive := false, intervalRunning := false,
                    claims := m.claims + [m.sessionSeconds + k + Config.MinuteBonusSeconds])
    decreases k
  {
    if k > 1 {
      var m' := CaptureTickCorrected(m);
      assert m' == m.(captureSeconds := m.captureSeconds + 1, sessionSeconds := m.sessionSeconds + 1);
      CaptureTickCorrectedInv(m);
      CorrectedTicksComplete(m', k - 1);
    }
  }

  /** The corrected completion still saves the whole session, `70 - seed`
      seconds, and a later leave saves nothing more. */
  lemma CorrectedCompletionSavesOnce(m: Machine)
    requires Inv(m) && m.intervalRunning && m.sessionSeconds == 0
    requires m.captureSeconds < DailyLimitSeconds
    ensures var done := TicksCorrected(m, DailyLimitSeconds - m.captureSeconds);
            && done.claims == m.claims + [MaxClaimSeconds - m.captureSeconds]
            && LeaveRadiusSpec(done).claims == done.claims
  {
    CorrectedTicksComplete(m, DailyLimitSeconds - m.captureSeconds);
  }

  // ---------------------------------------------------------------------------
  // The hook's state as a mutable object
  // ---------------------------------------------------------------------------

  class CaptureMachine {
    var insideRadius: bool
    var entryProgressMs: nat
    var entryPending: bool
    var captureActive: bool
    var captureSeconds: nat
    var sessionSeconds: nat
    var dailySeconds: nat
    var intervalRunning: bool
    /** Every amount passed to `onSaveClaim`, oldest first. */
    ghost var claims: seq<nat>

    ghost function State(): Machine
      reads this
    {
      Machine(insideRadius, entryProgressMs, entryPending, captureActive,
              captureSeconds, sessionSeconds, dailySeconds, intervalRunning, claims)
    }

    ghost predicate Valid()
      reads this
    {
      Inv(State())
    }

    constructor ()
      ensures Valid() && State() == Initial()
    {
      insideRadius, entryProgressMs, entryPending := false, 0, false;
      captureActive, captureSeconds, sessionSeconds := false, 0, 0;
      dailySeconds, intervalRunning := 0, false;
      claims := [];
    }

    method EnterRadius()
      requires Valid()
      modifies this
      ensures Valid() && State() == EnterRadiusSpec(old(State()))
    {
      EnterRadiusInv(State());
      if !insideRadius {
        insideRadius := true;
        if !captureActive && entryProgressMs == 0 {
          entryPending := true;
        }
      }
    }

    method EntryFrame(elapsedMs: nat, lookup: Option<nat>)
      requires Valid() && entryPending
      modifies this
      ensures Valid() && State() == EntryFrameSpec(old(State()), elapsedMs, lookup)
    {
      EntryFrameInv(State(), elapsedMs, lookup);
      if elapsedMs < EntryDurationMs {
        entryProgressMs := elapsedMs;
        return;
      }
      entryProgressMs := EntryDurationMs;
      entryPending := false;
      var activate := true;
      if lookup.Some? {
        dailySeconds := lookup.value;
        activate := lookup.value < DailyLimitSeconds;
      }
      if activate {
        captureActive := true;
        intervalRunning := true;
        captureSeconds := dailySeconds;
        sessionSeconds := 0;
      }
    }

    /** `saved` is the amount passed to `onSaveClaim`, 0 when none. */
    method CaptureTick() returns (saved: nat)
      requires Valid() && intervalRunning
      modifies this
      ensures Valid() && State() == CaptureTickSpec(old(State()))
      ensures claims == old(claims) + (if saved > 0 then [saved] else [])
    {
      CaptureTickInv(State());
      captureSeconds := captureSeconds + 1;
      var bonus := if captureSeconds % 60 == 0 then Config.MinuteBonusSeconds else 0;
      sessionSeconds := sessionSeconds + 1 + bonus;
      saved := 0;
      if captureSeconds >= DailyLimitSeconds {
        saved := sessionSeconds;
        claims := claims + [saved];
        // the capture effect's start branch, run again
        captureSeconds := dailySeconds;
        sessionSeconds := 0;
      }
    }

    /** `saved` is the amount passed to `onSaveClaim`, 0 when none. */
    method LeaveRadius() returns (saved: nat)
      requires Valid()
      modifies this
      ensures Valid() && State() == LeaveRadiusSpec(old(State()))
      ensures claims == old(claims) + (if saved > 0 then [saved] else [])
    {
      LeaveRadiusInv(State());
      saved := 0;
      if !insideRadius {
        return;
      }
      insideRadius := false;
      entryProgressMs := 0;
      entryPending := false;
      if captureActive && sessionSeconds > 0 {
        saved := sessionSeconds;
        claims := claims + [saved];
      }
      captureActive := false;
      if intervalRunning {
        intervalRunning := false;
        captureSeconds := 0;
        sessionSeconds := 0;
        dailySeconds := 0;
      }
    }
  }

  /** A full visit driven through the object: enter, let entry complete with
      `seed` seconds already claimed today, let the interval fire `60 - seed`
      times, then leave. The visit saves `70 - seed` seconds exactly once,
      on the last tick, and leaving saves nothing more. */
  method FullVisit(seed: nat) returns (earned: nat, ticks: nat, ghost saved: seq<nat>)
    requires seed < DailyLimitSeconds
    ensures earned == MaxClaimSeconds - seed
    ensures ticks == DailyLimitSeconds - seed
    ensures saved == [earned]
  {
    var hook := new CaptureMachine();
    hook.EnterRadius();
    hook.EntryFrame(EntryDurationMs, Some(seed));
    earned, ticks := 0, 0;
    while ticks < DailyLimitSeconds - seed
      invariant hook.Valid() && hook.insideRadius && hook.intervalRunning
      invariant hook.dailySeconds == seed && ticks <= DailyLimitSeconds - seed
      invariant ticks < DailyLimitSeconds - seed ==>
                  hook.captureSeconds == seed + ticks && hook.sessionSeconds == ticks
                  && hook.claims == [] && earned == 0
      invariant ticks == DailyLimitSeconds - seed ==>
                  hook.captureSeconds == seed && hook.sessionSeconds == 0
                  && hook.claims == [earned] && earned == MaxClaimSeconds - seed
      decreases DailyLimitSeconds - seed - ticks
    {
      var s := hook.CaptureTick();
      if ticks + 1 == DailyLimitSeconds - seed {
        assert MinuteBonus(DailyLimitSeconds) == Config.MinuteBonusSeconds;
        assert hook.claims == [MaxClaimSeconds - seed] == [s];
      }
      earned := earned + s;
      ticks := ticks + 1;
    }
    var s := hook.LeaveRadius();
    earned := earned + s;
    saved := hook.claims;
  }
}
