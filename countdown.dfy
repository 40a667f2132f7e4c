/**
 * The countdown state machine that runs between the start of the timer and
 * the terminal dispatch: the per-tick key rules and the loop they drive.
 *
 * Durations and times of day are counted in TimeSpan ticks of 100 ns.
 */
module Countdown {
  import opened ExitModes

  type Ticks = nat

  const TicksPerMillisecond: nat := 10_000

  /** The fixed countdown length, two seconds; nothing ever changes it. */
  const Timeout: Ticks := 2_000 * TicksPerMillisecond

  /** The wait between two polls of the keyboard. */
  const KeyCheckDelay: Ticks := 50 * TicksPerMillisecond

  /** A value of the 16-bit key-state word the keyboard query returns. */
  type KeyState = x: int | -0x8000 <= x < 0x8000

  /** The key states read during one poll: ESC, the numeric-pad ADD key and Enter. */
  datatype KeySample = KeySample(escape: KeyState, add: KeyState, enter: KeyState)

  /** ESC and ADD count as pressed on any nonzero state. */
  predicate IsPressed(k: KeyState)
  {
    k != 0
  }

  /**
   * Enter counts only when its state is neither 0 (up) nor 1 (pressed since
   * the last query but up now).
   */
  predicate EnterFires(k: KeyState)
  {
    k != 0 && k != 1
  }

  /** A poll in which no rule can fire. */
  predicate IsIdle(k: KeySample)
  {
    !IsPressed(k.escape) && !IsPressed(k.add) && !EnterFires(k.enter)
  }

  /**
   * The controller's state: the exit mode, the stopwatch reading and the
   * auto-switch flag fixed at entry.
   */
  datatype Countdown = Countdown(mode: ExitMode, elapsed: Ticks, isAutoSwitch: bool)

  /** Every stopwatch restart goes with a move to a different mode, and the flag is kept. */
  ghost predicate RestartsOnlyOnChange(s: Countdown, r: Countdown)
  {
    r.isAutoSwitch == s.isAutoSwitch &&
    r.elapsed == (if r.mode != s.mode then 0 else s.elapsed)
  }

  /** The ADD rule: switch to Reboot unless already there. */
  function OnAdd(s: Countdown, add: KeyState): (r: Countdown)
    ensures r.mode == (if IsPressed(add) then Reboot else s.mode)
    ensures RestartsOnlyOnChange(s, r)
  {
    if s.mode != Reboot && IsPressed(add) then s.(mode := Reboot, elapsed := 0) else s
  }

  /**
   * The Enter rule. After an automatic escalation it only takes ShutDown
   * back to Sleep; otherwise it takes every other mode to ShutDown.
   */
  function OnEnter(s: Countdown, enter: KeyState): (r: Countdown)
    ensures !EnterFires(enter) ==> r == s
    ensures EnterFires(enter) && s.isAutoSwitch ==> r.mode == (if s.mode == ShutDown then Sleep else s.mode)
    ensures EnterFires(enter) && !s.isAutoSwitch ==> r.mode == ShutDown
    ensures RestartsOnlyOnChange(s, r)
  {
    if !EnterFires(enter) then s
    else if s.isAutoSwitch then
      if s.mode == ShutDown then s.(mode := Sleep, elapsed := 0) else s
    else if s.mode != ShutDown then s.(mode := ShutDown, elapsed := 0)
    else s
  }

  /** How one poll ends: ESC breaks out of the loop, anything else waits for the next poll. */
  datatype TickResult = Cancelled(state: Countdown) | Continued(state: Countdown)

  /**
   * One iteration of the loop body: ESC first, which cancels and skips the
   * rest; then ADD; then Enter; then the wait.
   */
  function Tick(s: Countdown, k: KeySample): (r: TickResult)
    ensures r.Cancelled? <==> IsPressed(k.escape)
    ensures r.Cancelled? ==> r.state == s.(mode := Cancel)
    ensures r.Continued? ==> r.state.isAutoSwitch == s.isAutoSwitch
    ensures r.Continued? && IsWorking(s.mode) ==> IsWorking(r.state.mode)
    ensures r.Continued? ==> r.state.elapsed == s.elapsed + KeyCheckDelay || r.state.elapsed == KeyCheckDelay
    ensures r.Continued? && r.state.elapsed != s.elapsed + KeyCheckDelay ==> (IsPressed(k.add) || EnterFires(k.enter))
  {
    if IsPressed(k.escape) then Cancelled(s.(mode := Cancel))
    else
      var afterEnter := OnEnter(OnAdd(s, k.add), k.enter);
      Continued(afterEnter.(elapsed := afterEnter.elapsed + KeyCheckDelay))
  }

  /** Why the loop stopped. */
  datatype LoopExit = TimedOut | EscPressed | SamplesExhausted

  /**
   * Where the loop stands once it stops: why, in which state, and the index
   * of the first sample it did not consume. `SamplesExhausted` means the
   * countdown was still running when the samples ran out.
   */
  datatype LoopEnd = LoopEnd(how: LoopExit, state: Countdown, next: nat)

  /** The loop from sample `from` on: poll while the stopwatch is below the timeout. */
  function Run(s: Countdown, keys: seq<KeySample>, from: nat): (r: LoopEnd)
    requires from <= |keys|
    ensures from <= r.next <= |keys|
    ensures r.how == TimedOut ==> r.state.elapsed >= Timeout
    ensures r.how == SamplesExhausted ==> r.next == |keys| && r.state.elapsed < Timeout
    ensures r.how == EscPressed ==> r.next > from && r.state.mode == Cancel
    ensures r.state.isAutoSwitch == s.isAutoSwitch
    ensures IsWorking(s.mode) && r.how != EscPressed ==> IsWorking(r.state.mode)
    decreases |keys| - from
  {
    if s.elapsed >= Timeout then LoopEnd(TimedOut, s, from)
    else if from == |keys| then LoopEnd(SamplesExhausted, s, from)
    else
      match Tick(s, keys[from])
      case Cancelled(next) => LoopEnd(EscPressed, next, from + 1)
      case Continued(next) => Run(next, keys, from + 1)
  }

  /**
   * The polling loop over local mode, stopwatch and flag: while the
   * stopwatch is below the timeout, poll the next sample: ESC cancels and
   * leaves, then ADD, then Enter; then wait one delay. Each poll does what
   * `Tick` specifies.
   */
  method RunCountdown(start: Countdown, keys: seq<KeySample>) returns (end: LoopEnd)
    ensures end == Run(start, keys, 0)
  {
    var mode: ExitMode, elapsed: Ticks, isAutoSwitch: bool := start.mode, start.elapsed, start.isAutoSwitch;
    var i := 0;
    while elapsed < Timeout
      invariant i <= |keys|
      invariant Run(start, keys, 0) == Run(Countdown(mode, elapsed, isAutoSwitch), keys, i)
      decreases |keys| - i
    {
      if i == |keys| {
        return LoopEnd(SamplesExhausted, Countdown(mode, elapsed, isAutoSwitch), i);
      }
      ghost var before := Countdown(mode, elapsed, isAutoSwitch);
      var k := keys[i];
      i := i + 1;

      if IsPressed(k.escape) {
        mode := Cancel;
        return LoopEnd(EscPressed, Countdown(mode, elapsed, isAutoSwitch), i);
      }

      if mode != Reboot && IsPressed(k.add) {
        elapsed := 0;
        mode := Reboot;
      }

      if EnterFires(k.enter) {
        if isAutoSwitch {
          if mode == ShutDown {
            elapsed := 0;
            mode := Sleep;
          }
        } else if mode != ShutDown {
          elapsed := 0;
          mode := ShutDown;
        }
      }

      elapsed := elapsed + KeyCheckDelay;
      assert Tick(before, k) == Continued(Countdown(mode, elapsed, isAutoSwitch));
    }
    end := LoopEnd(TimedOut, Countdown(mode, elapsed, isAutoSwitch), i);
  }

  /**
   * The loop leaves through ESC exactly when the last sample it consumed had
   * ESC pressed; every earlier sample it consumed had ESC up.
   */
  lemma {:induction false} EscIsLastSample(s: Countdown, keys: seq<KeySample>, from: nat)
    requires from <= |keys|
    ensures var r := Run(s, keys, from);
      (r.how == EscPressed <==> r.next > from && IsPressed(keys[r.next - 1].escape)) &&
      forall i :: from <= i < r.next - 1 ==> !IsPressed(keys[i].escape)
    decreases |keys| - from
  {
    if s.elapsed < Timeout && from < |keys| && !IsPressed(keys[from].escape) {
      EscIsLastSample(Tick(s, keys[from]).state, keys, from + 1);
    }
  }

  /** Starting from a working mode, the loop ends in Cancel exactly when it left through ESC. */
  lemma CancelIffEsc(s: Countdown, keys: seq<KeySample>, from: nat)
    requires IsWorking(s.mode) && from <= |keys|
    ensures Run(s, keys, from).state.mode == Cancel <==> Run(s, keys, from).how == EscPressed
  {
  }

  /** No rule can fire in the samples from `from` up to `to`. */
  predicate IdleBetween(keys: seq<KeySample>, from: nat, to: nat)
    requires from <= to <= |keys|
  {
    forall i :: from <= i < to ==> IsIdle(keys[i])
  }

  /**
   * Polls in which nothing is pressed change neither the mode nor the flag:
   * enough idle polls run the countdown out in the mode it started in, with
   * the stopwatch advanced by one delay per poll.
   */
  lemma {:induction false} IdleRunsOut(s: Countdown, keys: seq<KeySample>, from: nat)
    requires from <= |keys| && IdleBetween(keys, from, |keys|)
    requires s.elapsed + (|keys| - from) * KeyCheckDelay >= Timeout
    ensures var r := Run(s, keys, from);
      r.how == TimedOut &&
      r.state == s.(elapsed := s.elapsed + (r.next - from) * KeyCheckDelay)
    decreases |keys| - from
  {
    if s.elapsed < Timeout {
      assert Tick(s, keys[from]) == Continued(s.(elapsed := s.elapsed + KeyCheckDelay));
      IdleRunsOut(s.(elapsed := s.elapsed + KeyCheckDelay), keys, from + 1);
    }
  }

  /** The same polls without enough of them: the countdown is still running. */
  lemma {:induction false} IdleKeepsCounting(s: Countdown, keys: seq<KeySample>, from: nat)
    requires from <= |keys| && IdleBetween(keys, from, |keys|)
    requires s.elapsed + (|keys| - from) * KeyCheckDelay < Timeout
    ensures Run(s, keys, from) == LoopEnd(SamplesExhausted, s.(elapsed := s.elapsed + (|keys| - from) * KeyCheckDelay), |keys|)
    decreases |keys| - from
  {
    if from < |keys| {
      assert Tick(s, keys[from]) == Continued(s.(elapsed := s.elapsed + KeyCheckDelay));
      IdleKeepsCounting(s.(elapsed := s.elapsed + KeyCheckDelay), keys, from + 1);
    }
  }

  /**
   * ESC cancels at once however much time is left: after idle polls up to
   * sample `j`, an ESC there ends the loop in Cancel, the state otherwise
   * unchanged but for the time the idle polls took.
   */
  lemma {:induction false} IdleThenEsc(s: Countdown, keys: seq<KeySample>, from: nat, j: nat)
    requires from <= j < |keys| && IdleBetween(keys, from, j) && IsPressed(keys[j].escape)
    requires s.elapsed + (j - from) * KeyCheckDelay < Timeout
    ensures Run(s, keys, from) == LoopEnd(EscPressed, s.(mode := Cancel, elapsed := s.elapsed + (j - from) * KeyCheckDelay), j + 1)
    decreases j - from
  {
    if from < j {
      assert Tick(s, keys[from]) == Continued(s.(elapsed := s.elapsed + KeyCheckDelay));
      IdleThenEsc(s.(elapsed := s.elapsed + KeyCheckDelay), keys, from + 1, j);
    }
  }

  /** The poll in which both ADD and Enter fire. */
  predicate AddAndEnter(k: KeySample)
  {
    !IsPressed(k.escape) && IsPressed(k.add) && EnterFires(k.enter)
  }

  /**
   * Without auto-switch, ADD and Enter in one poll end in ShutDown whatever
   * the mode was, and the stopwatch is restarted on the way, even when the
   * mode was ShutDown already: the restart goes with the intermediate move
   * to Reboot, not with a change between the two sides of the poll.
   */
  lemma AddThenEnterEndsInShutDown(s: Countdown, k: KeySample)
    requires !s.isAutoSwitch && IsWorking(s.mode) && AddAndEnter(k)
    ensures Tick(s, k) == Continued(s.(mode := ShutDown, elapsed := KeyCheckDelay))
  {
  }

  /**
   * With auto-switch the same poll ends in Reboot: Enter sees Reboot, not
   * ShutDown, and does nothing.
   */
  lemma AddThenEnterAfterAutoSwitch(s: Countdown, k: KeySample)
    requires s.isAutoSwitch && IsWorking(s.mode) && AddAndEnter(k)
    ensures Tick(s, k).state.mode == Reboot
  {
  }

  /**
   * Holding ADD and Enter without auto-switch restarts the stopwatch on
   * every poll, so however many polls are sampled the countdown never
   * reaches its timeout.
   */
  lemma {:induction false} AddAndEnterHeldNeverTimesOut(s: Countdown, keys: seq<KeySample>, from: nat)
    requires !s.isAutoSwitch && IsWorking(s.mode) && s.elapsed < Timeout
    requires from <= |keys| && forall i :: from <= i < |keys| ==> AddAndEnter(keys[i])
    ensures Run(s, keys, from).how == SamplesExhausted
    decreases |keys| - from
  {
    if from < |keys| {
      AddThenEnterEndsInShutDown(s, keys[from]);
      AddAndEnterHeldNeverTimesOut(s.(mode := ShutDown, elapsed := KeyCheckDelay), keys, from + 1);
    }
  }

  /**
   * The stopwatch never passes the timeout by a whole delay: the loop
   * leaves as soon as the timeout is reached.
   */
  lemma {:induction false} OvershootBelowOneDelay(s: Countdown, keys: seq<KeySample>, from: nat)
    requires from <= |keys| && s.elapsed < Timeout + KeyCheckDelay
    ensures Run(s, keys, from).state.elapsed < Timeout + KeyCheckDelay
    decreases |keys| - from
  {
    if s.elapsed < Timeout && from < |keys| && !IsPressed(keys[from].escape) {
      OvershootBelowOneDelay(Tick(s, keys[from]).state, keys, from + 1);
    }
  }
}
