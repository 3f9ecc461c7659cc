/**
 Two protocols of tools/cpu_profile.py: the commands `record` gives its trace session, and the process handles
 `find_game` opens.
 */
module ProfileSession {
  import opened Prelude

  // ---------------------------------------------------------------- the trace session

  /** What a step may raise: an ordinary error, or an interrupt that `except Exception` does not catch. */
  datatype Raised = Ordinary | Interrupt

  datatype Command = Start | Stop | Cancel

  datatype Fault = CommandFault(command: Command,
      raised: Raised) | StartedFault(raised: Raised) | WorkloadFault(raised: Raised) | StoppedFault(raised: Raised)

  /** What each step does, should it be taken. */
  datatype Script = Script(start: Option<Raised>, started: Option<Raised>, workload: Option<Raised>,
      stop: Option<Raised>, stopped: Option<Raised>, cancel: Option<Raised>) {
    function Of(c: Command): Option<Raised> { match c case Start => start case Stop => stop case Cancel => cancel }
  }

  datatype Issued = Issued(command: Command, instance: string)

  /** The session tool, as one recording uses it. */
  class Recorder {
    const instance: string
    const script: Script
    var log: seq<Issued>

    constructor (instance: string, script: Script)
      ensures log == [] && this.instance == instance && this.script == script
    {
      this.instance, this.script := instance, script;
      log := [];
    }

    method Run(c: Command) returns (r: Option<Raised>)
      modifies this`log
      ensures log == old(log) + [Issued(c, instance)] && r == script.Of(c)
    {
      log := log + [Issued(c, instance)];
      r := script.Of(c);
    }

    /** A command failed: the session is cancelled, and the failure stands unless the cancellation is interrupted. */
    method CleanUp(failed: Fault) returns (r: Fault)
      modifies this`log
      ensures log == old(log) + [Issued(Cancel, instance)]
      ensures r == if script.cancel == Some(Interrupt) then CommandFault(Cancel, Interrupt) else failed
    {
      var cancelled := Run(Cancel);
      r := if cancelled == Some(Interrupt) then CommandFault(Cancel, Interrupt) else failed;
    }

    /** record: the fault that leaves it, or none. */
    method Record() returns (fault: Option<Fault>)
      requires log == []
      modifies this`log
      ensures Commands(log) == Trace(script) && (forall i: nat :: i < |log| ==> log[i].instance == instance)
      ensures fault == Outcome(script)
    {
      var start := Run(Start);
      if start.Some? {
        var f := CleanUp(CommandFault(Start, start.value));
        return Some(f);
      }
      if script.started.Some? {
        return Some(StartedFault(script.started.value));
      }
      var failure := script.workload;
      var stop := Run(Stop);
      if stop.Some? {
        var f := CleanUp(CommandFault(Stop, stop.value));
        return Some(f);
      }
      if script.stopped.Some? {
        return Some(StoppedFault(script.stopped.value));
      }
      return if failure.Some? then Some(WorkloadFault(failure.value)) else None;
    }
  }

  function Commands(log: seq<Issued>): (cs: seq<Command>)
    ensures |cs| == |log| && forall i: nat :: i < |log| ==> cs[i] == log[i].command
  {
    seq(|log|, i requires 0 <= i < |log| => log[i].command)
  }

  /** The commands given. */
  function Trace(s: Script): seq<Command> {
    if s.start.Some? then [Start, Cancel]
    else if s.started.Some? then [Start]
    else if s.stop.Some? then [Start, Stop, Cancel]
    else [Start, Stop]
  }

  /** The fault that leaves the recording. */
  function Outcome(s: Script): Option<Fault> {
    if s.start.Some? then Some(Cleaned(s, CommandFault(Start, s.start.value)))
    else if s.started.Some? then Some(StartedFault(s.started.value))
    else if s.stop.Some? then Some(Cleaned(s, CommandFault(Stop, s.stop.value)))
    else if s.stopped.Some? then Some(StoppedFault(s.stopped.value))
    else if s.workload.Some? then Some(WorkloadFault(s.workload.value))
    else None
  }

  function Cleaned(s: Script, f: Fault): Fault {
    if s.cancel == Some(Interrupt) then CommandFault(Cancel, Interrupt) else f
  }

  /**
   Whether a session may be live after the commands: starting may leave one even when it fails, only success ends it.
   */
  function Live(s: Script, trace: seq<Command>): bool {
    if trace == [] then false
    else
      var c := trace[|trace| - 1];
      if c == Start then true else if s.Of(c).None? then false else Live(s, trace[..|trace| - 1])
  }

  /** Whether the commands ended by trying to end the session. */
  predicate Ended(s: Script, trace: seq<Command>) {
    trace != [] && (trace[|trace| - 1] == Cancel || (trace[|trace| - 1] == Stop && s.stop.None?))
  }

  /**
   The session is brought to an end, or its end is at least attempted last, exactly when the callback that reports its
   start does not raise: that callback runs outside the recording's own handlers.
   */
  lemma SessionIsEndedIff(s: Script)
    ensures Ended(s, Trace(s)) <==> s.start.Some? || s.started.None?
    ensures !Live(s, Trace(s)) <==> Ended(s, Trace(s)) && (s.start.Some? || s.stop.Some? ==> s.cancel.None?)
  {
    assert [Start, Stop, Cancel][..2] == [Start, Stop] && [Start, Stop][..1] == [Start] &&
      [Start, Cancel][..1] == [Start];
    assert Live(s, [Start]) && Live(s, [Start, Stop]) == s.stop.Some? && Live(s, [Start, Cancel]) == s.cancel.Some?;
    assert Live(s, [Start, Stop, Cancel]) == (s.cancel.Some? && s.stop.Some?);
  }

  /**
   Every recording starts once, first; it stops at most once, cancels at most once, and nothing follows a cancellation.
   */
  lemma CommandsAreInOrder(s: Script)
    ensures var t := Trace(s);
      t[0] == Start && (forall i: nat :: 0 < i < |t| ==> t[i] != Start) &&
      (forall i: nat, j: nat :: i < j < |t| ==> t[i] != t[j]) &&
      forall i: nat :: i < |t| && t[i] == Cancel ==> i == |t| - 1
  {
  }

  /** A failing start or stop is what the caller sees, whatever the workload and an ordinary failure to clean up did. */
  lemma CommandFaultsWin(s: Script, w: Option<Raised>)
    requires s.cancel != Some(Interrupt)
    ensures s.start.Some? ==> Outcome(s.(workload := w)) == Some(CommandFault(Start, s.start.value))
    ensures s.start.None? && s.started.None? && s.stop.Some? ==>
      Outcome(s.(workload := w)) == Some(CommandFault(Stop, s.stop.value))
    ensures Outcome(s) != Some(CommandFault(Cancel, Ordinary))
    ensures Outcome(s) == None <==> s.(cancel := None) == Script(None, None, None, None, None, None)
  {
  }

  /** Which of the other faults is seen, in turn: each only when none before it was raised. */
  lemma FaultsInTurn(s: Script, x: Raised)
    ensures Outcome(s) == Some(StartedFault(x)) <==> s.start.None? && s.started == Some(x)
    ensures Outcome(s) == Some(StoppedFault(x)) <==>
      s.start.None? && s.started.None? && s.stop.None? && s.stopped == Some(x)
    ensures Outcome(s) == Some(WorkloadFault(x)) <==>
      s.start.None? && s.started.None? && s.stop.None? && s.stopped.None? && s.workload == Some(x)
    ensures Outcome(s) == Some(CommandFault(Cancel, x)) <==>
      x == Interrupt && s.cancel == Some(Interrupt) && (s.start.Some? || (s.started.None? && s.stop.Some?))
  {
  }

  // ---------------------------------------------------------------- process handles

  datatype Wait = Running | Exited | WaitFailed

  /** What the system would answer to any query at one moment. */
  datatype Answer = Answer(opens: bool, path: Option<string>, wait: Wait)

  datatype FindError = MoreThanOne | Unwaitable

  /** The system: a handle may be used and closed only while it is open. */
  class Kernel {
    const answers: nat -> Answer
    var now: nat
    var next: nat
    var held: set<nat>
    /** Handles that were seen at the path looked for, and those that were seen to have exited. */
    ghost var matched: set<nat>
    ghost var gone: set<nat>

    constructor (answers: nat -> Answer)
      ensures this.answers == answers && held == {} && matched == {} && gone == {} && Valid()
    {
      this.answers := answers;
      now, next, held, matched, gone := 0, 0, {}, {}, {};
    }

    ghost predicate Valid()
      reads this
    {
      forall h: nat :: h in held || h in matched || h in gone ==> h < next
    }

    method Open() returns (h: Option<nat>)
      requires Valid()
      modifies this
      ensures Valid() && matched == old(matched) && gone == old(gone) && now == old(now) + 1
      ensures h.Some? ==> h.value == old(next) && next == old(next) + 1 && held == old(held) + {h.value}
      ensures h.None? ==> next == old(next) && held == old(held)
    {
      var opens := answers(now).opens;
      now := now + 1;
      if !opens {
        return None;
      }
      h := Some(next);
      held, next := held + {next}, next + 1;
    }

    method PathIs(h: nat, executable: string) returns (same: Option<bool>)
      requires Valid() && h in held
      modifies this`now, this`matched
      ensures Valid() && matched == if same == Some(true) then old(matched) + {h} else old(matched)
    {
      var path := answers(now).path;
      now := now + 1;
      if path.None? {
        return None;
      }
      same := Some(path.value == executable);
      if path.value == executable {
        matched := matched + {h};
      }
    }

    method HasExited(h: nat) returns (exited: Option<bool>)
      requires Valid() && h in held
      modifies this`now, this`gone
      ensures Valid() && gone == if exited == Some(true) then old(gone) + {h} else old(gone)
    {
      var wait := answers(now).wait;
      now := now + 1;
      exited := match wait case Running => Some(false) case Exited => Some(true) case WaitFailed => None;
      if exited == Some(true) {
        gone := gone + {h};
      }
    }

    method Close(h: nat)
      requires Valid() && h in held
      modifies this`held
      ensures Valid() && held == old(held) - {h}
    {
      held := held - {h};
    }
  }

  /** The processes found at the path since `before`, apart from the one kept. */
  ghost function Others(matched: set<nat>, before: set<nat>, kept: Option<nat>): set<nat> {
    matched - before - if kept.Some? then {kept.value} else {}
  }

  /** Two processes at the path that were not seen to have exited. */
  ghost predicate TwoLive(matched: set<nat>, gone: set<nat>) {
    exists g: nat, h: nat :: g != h && g in matched && h in matched && g !in gone && h !in gone
  }

  /** What the search keeps between processes. */
  ghost predicate Searching(held: set<nat>, matched: set<nat>, gone: set<nat>, before: set<nat>,
      matchedBefore: set<nat>, found: Option<nat>) {
    held == before + (if found.Some? then {found.value} else {}) &&
    (found.Some? ==> found.value !in before && found.value in matched && found.value !in matchedBefore) &&
    matchedBefore <= matched && Others(matched, matchedBefore, found) <= gone
  }

  /**
   One process of the listing: kept in place of an exited one, or closed. A second live one is refused, with both in
   hand.
   */
  method Consider(k: Kernel, executable: string, found: Option<nat>, ghost before: set<nat>,
      ghost matchedBefore: set<nat>)
      returns (r: Result<Option<nat>, FindError>, kept: Option<nat>)
    requires k.Valid() && Searching(k.held, k.matched, k.gone, before, matchedBefore, found)
    requires found.Some? ==> found.value !in k.gone
    requires forall h: nat :: h in before || h in matchedBefore ==> h < k.next
    modifies k
    ensures k.Valid() && k.next >= old(k.next)
    ensures r.Ok? ==>
      kept == r.value && Searching(k.held, k.matched, k.gone, before, matchedBefore, kept) &&
      (kept.Some? ==> kept.value !in k.gone)
    ensures r.Err? ==> k.held == before + if kept.Some? then {kept.value} else {}
    ensures r.Err? && kept.Some? ==> kept.value !in before
    ensures r == Err(MoreThanOne) ==> TwoLive(k.matched, k.gone)
  {
    kept := found;
    var opening := k.Open();
    if opening.None? {
      return Ok(found), found;
    }
    var process := opening.value;
    var same := k.PathIs(process, executable);
    if same != Some(true) {
      k.Close(process);
      return Ok(found), found;
    }
    var exited := k.HasExited(process);
    if exited.None? {
      k.Close(process);
      return Err(Unwaitable), found;
    }
    if exited.value {
      k.Close(process);
      return Ok(found), found;
    }
    if found.Some? {
      var left := k.HasExited(found.value);
      if left.None? {
        k.Close(process);
        return Err(Unwaitable), found;
      }
      if !left.value {
        k.Close(process);
        return Err(MoreThanOne), found;
      }
      k.Close(found.value);
    }
    return Ok(Some(process)), Some(process);
  }

  /**
   find_game: of all handles held, the one returned is still open and every other is closed, however it ends. A
   process is returned only if every other match had exited, and the search is refused only over two live matches.
   */
  method FindGame(k: Kernel, pids: nat, executable: string) returns (r: Result<Option<nat>, FindError>)
    requires k.Valid()
    modifies k
    ensures k.Valid() && k.held == old(k.held) + if r.Ok? && r.value.Some? then {r.value.value} else {}
    ensures r.Ok? ==> Others(k.matched, old(k.matched), r.value) <= k.gone
    ensures r.Ok? && r.value.Some? ==>
      r.value.value !in old(k.held) && r.value.value in k.matched && r.value.value !in k.gone
    ensures r == Err(MoreThanOne) ==> TwoLive(k.matched, k.gone)
  {
    ghost var before, matchedBefore := k.held, k.matched;
    var found: Option<nat> := None;
    for n := 0 to pids
      invariant k.Valid() && Searching(k.held, k.matched, k.gone, before, matchedBefore, found)
      invariant found.Some? ==> found.value !in k.gone
      invariant forall h: nat :: h in before || h in matchedBefore ==> h < k.next
    {
      var step, kept := Consider(k, executable, found, before, matchedBefore);
      if step.Err? {
        if kept.Some? {
          k.Close(kept.value);
        }
        return Err(step.error);
      }
      found := kept;
    }
    if found.Some? {
      var exited := k.HasExited(found.value);
      if exited.None? {
        k.Close(found.value);
        return Err(Unwaitable);
      }
      if exited.value {
        k.Close(found.value);
        return Ok(None);
      }
    }
    return Ok(found);
  }
}
