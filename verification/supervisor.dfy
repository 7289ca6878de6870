/**
 * The crash-restart bookkeeping of `TrayIconManager` (modules/tray.py:192-484).
 *
 * The manager runs the native tray icon on a thread of its own; when the
 * icon's run loop raises, the loop either retries or gives up, by a rate
 * limit on two fields: `restart_count` and `last_restart_time`. The clock is
 * an input here (each crash carries the time it was handled at), a started
 * thread is an entry in `spawned`, and the icon handle is reduced to whether
 * it is present.
 */
module Supervisor {

  /** A crash less than this many seconds after the previous restart counts
      towards the limit (modules/tray.py:407). */
  const RestartWindow: real := 10.0
  /** More restarts than this in a row and the run loop gives up
      (modules/tray.py:413). */
  const MaxRestarts: int := 5

  /** `restart_count` and `last_restart_time`. */
  datatype Bookkeeping = Bookkeeping(count: int, last: real)

  /** The values `__init__` gives them (modules/tray.py:210-211). */
  const Initial: Bookkeeping := Bookkeeping(0, 0.0)

  /** The rate-limit rule applied when a crash is handled at time `now`
      (modules/tray.py:406-411). */
  function Bump(b: Bookkeeping, now: real): (r: Bookkeeping)
    ensures r.last == now
    ensures r.count == 1 || r.count == b.count + 1
  {
    Bookkeeping(if now - b.last < RestartWindow then b.count + 1 else 1, now)
  }

  predicate GivesUp(b: Bookkeeping)
  {
    b.count > MaxRestarts
  }

  /** Where, if at all, a concurrent `stop()` lands during one crashed
      attempt: not at all, before the crash branch checks `running`
      (modules/tray.py:402), or during the restart delay, so that the
      `while self.running` test (modules/tray.py:384) fails next. */
  datatype StopPoint = NoStop | BeforeCheck | DuringDelay

  /** How one run of the native icon ends: `icon.run()` returns, or it raises
      and the crash is handled at time `at`; creating the icon
      raising ends up in the same branch. */
  datatype Attempt = Returned | Raised(at: real, stop: StopPoint)

  /** Why `_run_icon` left its loop. `StillRunning`: the attempts given ran
      out, so the last icon is still inside `icon.run()`. */
  datatype LoopExit = NotRunning | StillRunning | ReturnedNormally | StoppedAfterCrash | GaveUp

  /** The outcome of `_run_icon`: the bookkeeping afterwards, the exit, and how
      many iterations of the loop it began. An iteration whose `_create_icon`
      raised counts although it created no icon. */
  datatype LoopResult = LoopResult(book: Bookkeeping, exit: LoopExit, iterations: nat)

  function Later(k: nat, r: LoopResult): LoopResult
  {
    r.(iterations := r.iterations + k)
  }

  /** `_run_icon` (modules/tray.py:382-418) on a sequence of attempts,
      started with the given `running` flag and bookkeeping. */
  function RunLoop(running: bool, b: Bookkeeping, xs: seq<Attempt>): LoopResult
    decreases |xs|
  {
    if !running then LoopResult(b, NotRunning, 0)
    else if xs == [] then LoopResult(b, StillRunning, 1)
    else match xs[0]
      case Returned => LoopResult(b, ReturnedNormally, 1)
      case Raised(now, stop) =>
        if stop == BeforeCheck then LoopResult(b, StoppedAfterCrash, 1)
        else
          var b' := Bump(b, now);
          if GivesUp(b') then LoopResult(b', GaveUp, 1)
          else Later(1, RunLoop(stop != DuringDelay, b', xs[1..]))
  }

  /** Crashes that nobody stops, each handled less than the window after
      the one before. */
  ghost predicate QuickSuccession(xs: seq<Attempt>)
  {
    && (forall i :: 0 <= i < |xs| ==> xs[i].Raised? && xs[i].stop == NoStop)
    && (forall i :: 0 < i < |xs| ==> xs[i].at - xs[i - 1].at < RestartWindow)
  }

  /** Crashes that nobody stops, each handled at least the window after the
      one before. */
  ghost predicate WellSpaced(xs: seq<Attempt>)
  {
    && (forall i :: 0 <= i < |xs| ==> xs[i].Raised? && xs[i].stop == NoStop)
    && (forall i :: 0 < i < |xs| ==> xs[i].at - xs[i - 1].at >= RestartWindow)
  }

  lemma {:induction false} QuickSuccessionFrom(b: Bookkeeping, xs: seq<Attempt>)
    requires QuickSuccession(xs)
    requires 1 <= b.count <= MaxRestarts
    requires xs != [] ==> xs[0].at - b.last < RestartWindow
    decreases |xs|
    ensures var r := RunLoop(true, b, xs);
      if |xs| > MaxRestarts - b.count
      then r.exit == GaveUp && r.iterations == MaxRestarts + 1 - b.count && r.book.count == MaxRestarts + 1
      else r.exit == StillRunning && r.iterations == |xs| + 1 && r.book.count == b.count + |xs|
  {
    if xs != [] {
      var b' := Bump(b, xs[0].at);
      if !GivesUp(b') {
        var ys := xs[1..];
        assert QuickSuccession(ys) by {
          forall i | 0 < i < |ys| ensures ys[i].at - ys[i - 1].at < RestartWindow {
            assert ys[i] == xs[i + 1] && ys[i - 1] == xs[i];
          }
        }
        assert ys != [] ==> ys[0] == xs[1];
        QuickSuccessionFrom(b', ys);
      }
    }
  }

  /** From the state `__init__` leaves, crashes in quick succession are
      restarted five times; the sixth crash gives up. */
  lemma QuickCrashesGiveUpAfterFiveRestarts(xs: seq<Attempt>)
    requires QuickSuccession(xs)
    ensures var r := RunLoop(true, Initial, xs);
      if |xs| > MaxRestarts
      then r.exit == GaveUp && r.iterations == MaxRestarts + 1
      else r.exit == StillRunning && r.iterations == |xs| + 1
  {
    if xs != [] {
      var b := Bump(Initial, xs[0].at);
      assert b.count == 1;
      var ys := xs[1..];
      assert QuickSuccession(ys) by {
        forall i | 0 < i < |ys| ensures ys[i].at - ys[i - 1].at < RestartWindow {
          assert ys[i] == xs[i + 1] && ys[i - 1] == xs[i];
        }
      }
      assert ys != [] ==> ys[0] == xs[1];
      QuickSuccessionFrom(b, ys);
    }
  }

  /** The count grows by at most one per crash, so giving up takes at least
      `MaxRestarts + 1 - count` iterations of the loop; from the initial
      state, six. */
  lemma {:induction false} GivingUpTakesSixCrashes(running: bool, b: Bookkeeping, xs: seq<Attempt>)
    requires 0 <= b.count
    ensures RunLoop(running, b, xs).exit == GaveUp ==>
      RunLoop(running, b, xs).iterations >= MaxRestarts + 1 - b.count
    decreases |xs|
  {
    if running && xs != [] && xs[0].Raised? && xs[0].stop != BeforeCheck {
      var b' := Bump(b, xs[0].at);
      if !GivesUp(b') {
        GivingUpTakesSixCrashes(xs[0].stop != DuringDelay, b', xs[1..]);
      }
    }
  }

  /** Crashes at least the window apart reset the count each time and are
      restarted for ever. */
  lemma {:induction false} SpacedCrashesNeverGiveUp(b: Bookkeeping, xs: seq<Attempt>)
    requires WellSpaced(xs)
    requires xs != [] ==> b.count < MaxRestarts || xs[0].at - b.last >= RestartWindow
    ensures var r := RunLoop(true, b, xs);
      && r.exit == StillRunning && r.iterations == |xs| + 1
      && (xs != [] ==> r.book.last == xs[|xs| - 1].at)
      && (xs != [] ==> r.book.count == if |xs| == 1 && xs[0].at - b.last < RestartWindow then b.count + 1 else 1)
    decreases |xs|
  {
    if xs != [] {
      var b' := Bump(b, xs[0].at);
      var ys := xs[1..];
      assert WellSpaced(ys) by {
        forall i | 0 < i < |ys| ensures ys[i].at - ys[i - 1].at >= RestartWindow {
          assert ys[i] == xs[i + 1] && ys[i - 1] == xs[i];
        }
      }
      if ys != [] {
        assert ys[0] == xs[1];
        var b'' := Bump(b', ys[0].at);
        assert b''.count == 1;
      }
      SpacedCrashesNeverGiveUp(b', ys);
    }
  }

  /** A thread the manager starts. */
  datatype Thread = IconThread | WatchdogThread

  class TrayIconManager {
    var running: bool
    /** Whether `self.icon` holds a handle. */
    var hasIcon: bool
    var restartCount: int
    var lastRestartTime: real
    /** The threads started so far, oldest first. */
    var spawned: seq<Thread>

    function Book(): Bookkeeping
      reads this
    {
      Bookkeeping(restartCount, lastRestartTime)
    }

    /** The states a manager can reach: a stopped manager holds no icon, and
        the count is never negative. */
    ghost predicate Valid()
      reads this
    {
      (!running ==> !hasIcon) && restartCount >= 0
    }

    /** `__init__` (modules/tray.py:203-211). */
    constructor()
      ensures Valid()
      ensures !running && !hasIcon && Book() == Initial && spawned == []
    {
      running := false;
      hasIcon := false;
      restartCount := 0;
      lastRestartTime := 0.0;
      spawned := [];
    }

    /** `start` (modules/tray.py:459-469): the count is not reset. */
    method Start()
      requires Valid()
      modifies this
      ensures Valid()
      ensures running && hasIcon == old(hasIcon) && Book() == old(Book())
      ensures spawned == old(spawned) + [IconThread, WatchdogThread]
    {
      running := true;
      spawned := spawned + [IconThread];
      spawned := spawned + [WatchdogThread];
    }

    /** `stop` (modules/tray.py:473-484). */
    method Stop()
      requires Valid()
      modifies this
      ensures Valid()
      ensures !running && !hasIcon && Book() == old(Book()) && spawned == old(spawned)
    {
      running := false;
      if hasIcon {
        hasIcon := false;
      }
    }

    /** The crash branch of `_run_icon` (modules/tray.py:396-415); `retry`
        says whether the loop goes round again. */
    method HandleCrash(now: real) returns (retry: bool)
      requires Valid()
      modifies this
      ensures Valid()
      ensures !hasIcon && running == old(running) && spawned == old(spawned)
      ensures !old(running) ==> !retry && Book() == old(Book())
      ensures old(running) ==> Book() == Bump(old(Book()), now) && retry == !GivesUp(Book())
    {
      hasIcon := false;
      if !running {
        return false;
      }
      if now - lastRestartTime < RestartWindow {
        restartCount := restartCount + 1;
      } else {
        restartCount := 1;
      }
      lastRestartTime := now;
      retry := restartCount <= MaxRestarts;
    }

    /** `_run_icon` (modules/tray.py:382-418), fed the attempts in order. */
    method RunIcon(attempts: seq<Attempt>) returns (exit: LoopExit, iterations: nat)
      requires Valid()
      modifies this
      ensures Valid()
      ensures var r := RunLoop(old(running), old(Book()), attempts);
        exit == r.exit && iterations == r.iterations && Book() == r.book
      ensures running == (old(running) && exit != NotRunning && exit != StoppedAfterCrash)
      ensures hasIcon == (exit == StillRunning || exit == ReturnedNormally)
      ensures spawned == old(spawned)
    {
      ghost var whole := RunLoop(running, Book(), attempts);
      exit, iterations := NotRunning, 0;
      var i := 0;
      while running
        invariant 0 <= i <= |attempts| && iterations == i
        invariant exit == NotRunning
        invariant whole == Later(i, RunLoop(running, Book(), attempts[i..]))
        invariant i == 0 ==> running == old(running) && hasIcon == old(hasIcon)
        invariant i > 0 ==> old(running) && !hasIcon
        invariant spawned == old(spawned)
        invariant Valid()
        decreases |attempts| - i
      {
        hasIcon := true;
        iterations := iterations + 1;
        if i == |attempts| {
          exit := StillRunning;
          break;
        }
        var attempt := attempts[i];
        if attempt.Returned? {
          exit := ReturnedNormally;
          break;
        }
        if attempt.stop == BeforeCheck {
          Stop();
        }
        var retry := HandleCrash(attempt.at);
        if !retry {
          exit := if running then GaveUp else StoppedAfterCrash;
          break;
        }
        if attempt.stop == DuringDelay {
          Stop();
        }
        assert attempts[i..][1..] == attempts[i + 1..];
        i := i + 1;
      }
    }

    /** `_restart_icon` (modules/tray.py:438-457): the old handle is dropped
        and a new run-loop thread is started only while running. */
    method RestartIcon() returns (started: bool)
      requires Valid()
      modifies this
      ensures Valid()
      ensures !hasIcon && running == old(running) && Book() == old(Book())
      ensures started == running
      ensures spawned == old(spawned) + (if started then [IconThread] else [])
    {
      if hasIcon {
        hasIcon := false;
      }
      started := running;
      if running {
        spawned := spawned + [IconThread];
      }
    }

    /** One wake-up of `_watchdog` (modules/tray.py:424-436), given whether
        the run-loop thread is alive; `keepWatching` is false when the
        watchdog leaves its loop. */
    method WatchdogTick(threadAlive: bool) returns (keepWatching: bool, restarted: bool)
      requires Valid()
      modifies this
      ensures Valid()
      ensures keepWatching == old(running)
      ensures restarted == (old(running) && (!old(hasIcon) || !threadAlive))
      ensures running == old(running) && Book() == old(Book())
      ensures hasIcon == (old(hasIcon) && !restarted)
      ensures spawned == old(spawned) + (if restarted then [IconThread] else [])
    {
      if !running {
        return false, false;
      }
      keepWatching := true;
      restarted := !hasIcon || !threadAlive;
      if restarted {
        var started := RestartIcon();
      }
    }
  }

  /** After `stop`, the run loop creates no icon, `_restart_icon` starts no
      thread and the watchdog leaves its loop, whatever ran before. */
  method StopEndsSupervision(before: seq<Attempt>, after: seq<Attempt>, threadAlive: bool)
    returns (iterations: nat, started: bool, watching: bool, restarted: bool, threads: nat)
    ensures iterations == 0 && !started && !watching && !restarted
    ensures threads == 2
  {
    var m := new TrayIconManager();
    m.Start();
    var exit0, n0 := m.RunIcon(before);
    m.Stop();
    var exit;
    exit, iterations := m.RunIcon(after);
    started := m.RestartIcon();
    watching, restarted := m.WatchdogTick(threadAlive);
    threads := |m.spawned|;
  }

  /** One crash, then an icon that stays up: one restart is recorded and
      the icon is present. */
  method CrashOnceThenRecover(now: real) returns (exit: LoopExit, count: int, iconPresent: bool)
    ensures exit == StillRunning && count == 1 && iconPresent
  {
    var m := new TrayIconManager();
    m.Start();
    var iterations;
    exit, iterations := m.RunIcon([Raised(now, NoStop)]);
    count := m.restartCount;
    iconPresent := m.hasIcon;
  }

  /** Giving up is not final: the loop leaves `running` set and the icon
      absent, so the watchdog's next wake-up starts a new run-loop thread. */
  method GiveUpIsNotFinal(xs: seq<Attempt>, threadAlive: bool) returns (exit: LoopExit, restarted: bool)
    requires QuickSuccession(xs) && |xs| > MaxRestarts
    ensures exit == GaveUp && restarted
  {
    var m := new TrayIconManager();
    m.Start();
    var iterations;
    exit, iterations := m.RunIcon(xs);
    QuickCrashesGiveUpAfterFiveRestarts(xs);
    var watching;
    watching, restarted := m.WatchdogTick(threadAlive);
  }
}
