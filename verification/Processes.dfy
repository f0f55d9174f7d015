/** A child process as the daemon sees it (process.c): a thread waits for the child and writes
    each change of its state to a pipe; the event loop reads one change at a time. */
module Processes {

  datatype ProcessState = UnknownState | RunningState | ErrorState | ExitedState | KilledState | StoppedState {
    /** process_state_is_alive: neither exited, nor killed, nor failed. */
    predicate Alive() {
      !ExitedState? && !KilledState? && !ErrorState?
    }
  }

  type Pid = p: nat | p > 0 witness 1

  datatype Change = Change(state: ProcessState, exitCode: nat)

  // Exit codes by which the child reports that it could not run the program.
  const INTERNAL_ERROR := 125
  const CANNOT_EXECUTE := 126
  const DOES_NOT_EXIST := 127

  /** What waitpid reports. */
  datatype WaitStatus = Exited(code: nat) | Signaled(signal: nat) | Halted(signal: nat) | Continued | Other

  function ChangeOf(status: WaitStatus): (c: Change)
    ensures c.state.Alive() <==> !status.Exited? && !status.Signaled?
    ensures c.state.ExitedState? && c.exitCode == 0 <==> status == Exited(0)
  {
    match status
    case Exited(code) =>
      Change(if code == INTERNAL_ERROR || code == CANNOT_EXECUTE || code == DOES_NOT_EXIST then ErrorState
             else ExitedState, code)
    case Signaled(signal) => Change(KilledState, signal)
    case Halted(signal) => Change(StoppedState, signal)
    case Continued => Change(RunningState, 0)
    case Other => Change(UnknownState, 0)
  }

  /** What is not read yet is the end of the history; the state is that of the last change read. */
  ghost predicate ReadSoFar(state: ProcessState, pipe: seq<Change>, history: seq<Change>) {
    && |pipe| <= |history| && pipe == history[|history| - |pipe|..]
    && state == if |pipe| == |history| then RunningState else history[|history| - |pipe| - 1].state
  }

  /** Only the last change can be a death; the thread goes on as long as there is none, and stops
      before only when it gives up. */
  ghost predicate EndsDead(history: seq<Change>, waiting: bool, gaveUp: bool) {
    && (forall i | 0 <= i < |history| - 1 :: history[i].state.Alive())
    && (waiting && history != [] ==> history[|history| - 1].state.Alive())
    && (!waiting && !gaveUp ==> history != [] && !history[|history| - 1].state.Alive())
  }

  lemma MayGiveUp(history: seq<Change>)
    requires EndsDead(history, true, false)
    ensures EndsDead(history, false, true)
  {
  }

  lemma ReadNext(state: ProcessState, pipe: seq<Change>, history: seq<Change>, waiting: bool, gaveUp: bool)
    requires ReadSoFar(state, pipe, history) && EndsDead(history, waiting, gaveUp) && pipe != []
    ensures state.Alive() && ReadSoFar(pipe[0].state, pipe[1..], history)
    ensures !pipe[0].state.Alive() ==> pipe[1..] == [] && !waiting
  {
    var read := |history| - |pipe|;
    assert history[read + 1..] == pipe[1..];
    assert pipe[0] == history[read];
  }

  class Process {
    var state: ProcessState
    var exitCode: nat
    var pid: nat                 // zero once the process is dead
    var releaseOnDeath: bool     // give up an internal reference to the process object
    var pipe: seq<Change>        // written by the thread, not read yet
    var waiting: bool            // the thread has not ended
    ghost var history: seq<Change>   // everything ever written, in order
    ghost var releases: nat          // references given up because of its death
    ghost var gaveUp: bool           // the thread has ended because waitpid or the pipe failed

    /** The thread ends with the first change to a dead state, so nothing comes after it, unless
        it gives up; and what the daemon knows is the part of the history it has read. A death
        has its consequences once. */
    ghost predicate Valid()
      reads this
    {
      && ReadSoFar(state, pipe, history) && EndsDead(history, waiting, gaveUp)
      && (pid == 0 ==> !state.Alive())
      && releases <= 1 && (releases == 1 ==> !releaseOnDeath && !state.Alive())
      && (waiting ==> !gaveUp)
    }

    constructor (pid: Pid, releaseOnDeath: bool)
      ensures Valid() && state.RunningState? && exitCode == 0 && pipe == [] && waiting
      ensures this.pid == pid && this.releaseOnDeath == releaseOnDeath
    {
      state, exitCode, pipe, waiting, history := RunningState, 0, [], true, [];
      this.pid, this.releaseOnDeath, releases, gaveUp := pid, releaseOnDeath, 0, false;
    }

    /** One round of process_wait; it also ends when waitpid or the pipe fails. Three exit codes are
        taken for failures to run the program; every other status has a state of its own, and its
        code or signal goes with it. */
    method WaitOnce(status: WaitStatus, waited: bool, written: bool)
      requires Valid() && waiting
      modifies this
      ensures Valid() && state == old(state) && exitCode == old(exitCode) && pid == old(pid)
      ensures pipe == if waited && written then old(pipe) + [ChangeOf(status)] else old(pipe)
      ensures history == if waited && written then old(history) + [ChangeOf(status)] else old(history)
      ensures waiting <==> waited && written && !status.Exited? && !status.Signaled?
      ensures waited && written ==>
                var c := pipe[|old(pipe)|];
                && (c.state.ExitedState? <==> status.Exited? && status.code !in {125, 126, 127})
                && (c.state.ErrorState? <==> status.Exited? && status.code in {125, 126, 127})
                && (c.state.KilledState? <==> status.Signaled?) && (c.state.StoppedState? <==> status.Halted?)
                && (c.state.RunningState? <==> status.Continued?) && (c.state.UnknownState? <==> status.Other?)
                && (c.exitCode == match status
                                  case Exited(code) => code
                                  case Signaled(signal) => signal
                                  case Halted(signal) => signal
                                  case _ => 0)
      ensures gaveUp <==> !(waited && written)
    {
      hide ReadSoFar, EndsDead;
      MayGiveUp(history);
      if !waited {
        waiting, gaveUp := false, true;
        return;
      }
      var change := ChangeOf(status);
      if !written {
        waiting, gaveUp := false, true;
        return;
      }
      Put(change);
      if !change.state.Alive() {
        waiting := false;
      }
    }

    /** The thread writes to the pipe. */
    method Put(change: Change)
      requires Valid() && waiting
      modifies `pipe, `history
      ensures pipe == old(pipe) + [change] && history == old(history) + [change]
      ensures ReadSoFar(state, pipe, history)
      ensures EndsDead(history, change.state.Alive(), false)
    {
      ghost var read := |history| - |pipe|;
      pipe, history := pipe + [change], history + [change];
      assert history[read..] == pipe;
    }

    /** process_handle_state_change without the callbacks: the next change is read. A dead
        process has nothing left to read, so its state is final, and a reference that is given
        up because of its death is given up exactly once. */
    method ReadChange() returns (released: bool)
      requires Valid() && pipe != []
      modifies this
      ensures Valid() && old(state).Alive()
      ensures state == old(pipe[0]).state && exitCode == old(pipe[0]).exitCode && pipe == old(pipe[1..])
      ensures history == old(history) && waiting == old(waiting) && gaveUp == old(gaveUp)
      ensures !state.Alive() ==> pipe == [] && !waiting && pid == 0
      ensures state.Alive() ==> pid == old(pid)
      ensures released <==> old(releaseOnDeath) && !state.Alive()
      ensures releases == old(releases) + if released then 1 else 0
    {
      hide ReadSoFar, EndsDead;
      ReadNext(state, pipe, history, waiting, gaveUp);
      released := false;
      var change := pipe[0];
      pipe := pipe[1..];
      state, exitCode := change.state, change.exitCode;
      if !state.Alive() {
        pid := 0;
      }
      if releaseOnDeath && !state.Alive() {
        releaseOnDeath, released := false, true;
        releases := releases + 1;
      }
    }

    predicate IsNew()
      reads this
    {
      state.RunningState? && exitCode == 0 && waiting && pipe == []
    }

    /** Nothing will be read about it any more. */
    predicate Silent()
      reads this
    {
      !waiting && pipe == []
    }

    /** As long as a process is alive to the daemon, something will be reported about it, unless
        its thread gave up. */
    lemma AliveIsReported()
      requires Valid() && state.Alive()
      ensures !Silent() || gaveUp
    {
    }

    /** Nothing more will ever be reported about a dead process. */
    lemma DeadIsFinal()
      requires Valid() && !state.Alive()
      ensures Silent()
    {
      var i := |history| - |pipe| - 1;
      assert !history[i].state.Alive();
      assert i == |history| - 1;
    }
  }
}
