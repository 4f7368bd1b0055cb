/** The wrapper every registered command runs through
    (src/lib/CommandHandler.ts): the shared `isCommandRunning` flag keeps
    exclusive commands from overlapping, and a failing command becomes an
    error message instead of a rejected promise. A command's own work is
    not run here: how it settles is an input. */
module CommandHandlers {
  import opened Wrappers
  import CommandBase
  import Deploy
  import Package
  import DeployFunction
  import Logs
  import InvokeLocal
  import Resolve

  const InProgressMessage := "Serverless: Another command is still in progress."

  /** The message shown for a command that failed with `message`. */
  function FailureMessage(message: string): string
  {
    "Serverless: " + message
  }

  /** What `invoke` does before the command's own `invoke`, as a function
      of the command's `isExclusive` and the flag. */
  datatype Start = Start(called: bool, message: Option<string>, running: bool)

  function StartStep(exclusive: bool, running: bool): (s: Start)
    ensures exclusive && running ==> !s.called && s.message == Some(InProgressMessage) && s.running
    ensures exclusive && !running ==> s.called && s.message.None? && s.running
    ensures !exclusive ==> s.called && s.message.None? && s.running == running
  {
    if exclusive then
      if running then Start(false, Some(InProgressMessage), true) else Start(true, None, true)
    else Start(true, None, running)
  }

  /** What `invoke` does once the command's promise settles. */
  datatype Finish = Finish(message: Option<string>, running: bool)

  function FinishStep(exclusive: bool, running: bool, outcome: Result<Unit>): (f: Finish)
    ensures exclusive ==> !f.running
    ensures !exclusive ==> f.running == running
    ensures outcome.Ok? ==> f.message.None?
    ensures outcome.Err? ==> f.message == Some(FailureMessage(outcome.message))
  {
    Finish(if outcome.Err? then Some(FailureMessage(outcome.message)) else None,
           if exclusive then false else running)
  }

  /** `CommandHandler.isCommandRunning`: one flag shared by every handler. */
  class RunningFlag {
    var isCommandRunning: bool

    constructor ()
      ensures !isCommandRunning
    {
      isCommandRunning := false;
    }
  }

  /** A registered command: its `isExclusive` property (`None` for a command
      that has none) and the shared flag. */
  class CommandHandler {
    const isExclusive: Option<bool>
    const flag: RunningFlag

    constructor (flag: RunningFlag, isExclusive: Option<bool>)
      ensures this.flag == flag && this.isExclusive == isExclusive
    {
      this.flag := flag;
      this.isExclusive := isExclusive;
    }

    /** `if (isExclusive)`: only a property that is `true` counts. */
    predicate Exclusive()
    {
      isExclusive == Some(true)
    }

    /** The part of `invoke` before the command runs: `called` says whether
        the command's own `invoke` is reached. */
    method Begin() returns (called: bool, message: Option<string>)
      modifies flag
      ensures Start(called, message, flag.isCommandRunning) == StartStep(Exclusive(), old(flag.isCommandRunning))
    {
      called, message := true, None;
      if Exclusive() {
        if flag.isCommandRunning {
          called, message := false, Some(InProgressMessage);
          return;
        }
        flag.isCommandRunning := true;
      }
    }

    /** The two settle handlers `invoke` attaches to the command's promise. */
    method Settle(outcome: Result<Unit>) returns (message: Option<string>)
      modifies flag
      ensures Finish(message, flag.isCommandRunning) == FinishStep(Exclusive(), old(flag.isCommandRunning), outcome)
    {
      match outcome {
        case Ok(_) =>
          if Exclusive() {
            flag.isCommandRunning := false;
          }
          message := None;
        case Err(m) =>
          if Exclusive() {
            flag.isCommandRunning := false;
          }
          message := Some(FailureMessage(m));
      }
    }

    /** `invoke(node)` when nothing else runs until the command's `invoke`
        returns: the messages shown, whether the command ran, and how the
        wrapper's own call ends. The wrapper's promise resolves on every
        path, a failing command included; only a command whose `invoke`
        throws before returning a promise (as every command does for an
        undefined `node`, reading `node.kind`) makes the call throw, and
        then no settle handler runs, so an exclusive command leaves the
        flag set. */
    method Invoke(run: CommandRun) returns (called: bool, messages: seq<string>, result: Result<Unit>)
      modifies flag
      ensures var s := StartStep(Exclusive(), old(flag.isCommandRunning));
              && called == s.called
              && (!called ==> messages == [InProgressMessage] && flag.isCommandRunning == s.running && result == Ok(Unit))
              && (called && run.Settles? ==> var f := FinishStep(Exclusive(), s.running, run.outcome);
                             && flag.isCommandRunning == f.running
                             && messages == (if f.message.Some? then [f.message.value] else [])
                             && result == Ok(Unit))
              && (called && run.Throws? ==> messages == [] && flag.isCommandRunning == s.running && result == Err(run.error))
      ensures run.Settles? ==> result == Ok(Unit)
      ensures called && run.Throws? && Exclusive() ==> flag.isCommandRunning
    {
      var m;
      called, m := Begin();
      if !called {
        messages, result := [m.value], Ok(Unit);
        return;
      }
      match run {
        case Settles(outcome) =>
          m := Settle(outcome);
          messages, result := if m.Some? then [m.value] else [], Ok(Unit);
        case Throws(error) =>
          messages, result := [], Err(error);
      }
    }
  }

  /** The handler reads `isExclusive` as the commands set it: deploy and
      package (`super(true)`) are exclusive; the commands built with
      `super()`, and open handler, which has no such property, are not. */
  lemma CommandExclusivity(h: CommandHandler)
    ensures h.Exclusive() <==> CommandBase.Exclusive(h.isExclusive)
    ensures h.isExclusive == Deploy.IsExclusive || h.isExclusive == Package.IsExclusive ==> h.Exclusive()
    ensures (|| h.isExclusive == DeployFunction.IsExclusive || h.isExclusive == Logs.IsExclusive
             || h.isExclusive == InvokeLocal.IsExclusive || h.isExclusive == Resolve.IsExclusive)
            ==> !h.Exclusive()
    ensures h.isExclusive.None? ==> !h.Exclusive()
  {
  }

  /** How the command's own `invoke` comes back: with a promise that
      settles with `outcome`, or by throwing `error` synchronously. */
  datatype CommandRun = Settles(outcome: Result<Unit>) | Throws(error: string)

  // ---------------------------------------------------------------------
  // Interleaved invocations

  /** What can happen to the handlers, in order: invocation `id` starts
      (of an exclusive command or not) and its command returns a promise;
      the command started by invocation `id` settles; or invocation `id`
      starts and its command throws before returning a promise, so that
      neither settle handler is ever attached. */
  datatype HandlerEvent =
    | Invoked(id: nat, exclusive: bool)
    | Settled(id: nat, outcome: Result<Unit>)
    | Threw(id: nat, exclusive: bool)

  /** The flag and the invocations whose command is running, each with its
      exclusivity. */
  datatype Machine = Machine(running: bool, pending: map<nat, bool>)

  /** A trace in which an invocation id is used once and a command settles
      only after it started. */
  predicate WellFormed(trace: seq<HandlerEvent>)
  {
    if |trace| == 0 then true
    else
      var prefix := trace[..|trace| - 1];
      && WellFormed(prefix)
      && match trace[|trace| - 1]
         case Invoked(id, _) => id !in Started(prefix)
         case Settled(id, _) => id in Started(prefix)
         case Threw(id, _) => id !in Started(prefix)
  }

  /** The ids of every invocation in the trace. */
  function Started(trace: seq<HandlerEvent>): (ids: set<nat>)
    ensures forall id :: id in Replay(trace).pending ==> id in ids
    ensures forall id :: id in ReplayCorrected(trace).pending ==> id in ids
  {
    if |trace| == 0 then {}
    else
      var e := trace[|trace| - 1];
      Started(trace[..|trace| - 1]) + (if e.Settled? then {} else {e.id})
  }

  /** One event applied as `invoke` does it, with `StartStep`/`FinishStep`:
      a command that throws has passed `StartStep` and never reaches
      `FinishStep`. */
  function Step(m: Machine, e: HandlerEvent): Machine
  {
    match e
    case Invoked(id, exclusive) =>
      var s := StartStep(exclusive, m.running);
      Machine(s.running, if s.called then m.pending[id := exclusive] else m.pending)
    case Settled(id, outcome) =>
      if id in m.pending then Machine(FinishStep(m.pending[id], m.running, outcome).running, m.pending - {id})
      else m
    case Threw(_, exclusive) =>
      Machine(StartStep(exclusive, m.running).running, m.pending)
  }

  /** The state after a trace, from the flag's initial `false`. */
  function Replay(trace: seq<HandlerEvent>): Machine
  {
    if |trace| == 0 then Machine(false, map[])
    else Step(Replay(trace[..|trace| - 1]), trace[|trace| - 1])
  }

  /** A handler that treats a command throwing like a command whose promise
      rejects: once called, the throw runs `FinishStep` as well. */
  function StepCorrected(m: Machine, e: HandlerEvent): Machine
  {
    match e
    case Threw(_, exclusive) =>
      var s := StartStep(exclusive, m.running);
      Machine(if s.called then FinishStep(exclusive, s.running, Err("")).running else s.running, m.pending)
    case _ => Step(m, e)
  }

  function ReplayCorrected(trace: seq<HandlerEvent>): Machine
  {
    if |trace| == 0 then Machine(false, map[])
    else StepCorrected(ReplayCorrected(trace[..|trace| - 1]), trace[|trace| - 1])
  }

  /** No command throws before returning a promise. */
  predicate NoThrow(trace: seq<HandlerEvent>)
  {
    forall i :: 0 <= i < |trace| ==> !trace[i].Threw?
  }

  /** Some exclusive command is running. */
  predicate ExclusiveRunning(m: Machine)
  {
    exists id :: id in m.pending && m.pending[id]
  }

  /** Two exclusive commands never run at once. */
  predicate AtMostOneExclusive(m: Machine)
  {
    forall a, b :: a in m.pending && b in m.pending && m.pending[a] && m.pending[b] ==> a == b
  }

  /** The flag is set exactly while an exclusive command runs, and two
      exclusive commands never run at once. */
  predicate Exclusion(m: Machine)
  {
    && (m.running <==> ExclusiveRunning(m))
    && AtMostOneExclusive(m)
  }

  /** The half of `Exclusion` that survives a throwing command: the flag is
      set while an exclusive command runs, and two never run at once. */
  predicate Guarded(m: Machine)
  {
    && (ExclusiveRunning(m) ==> m.running)
    && AtMostOneExclusive(m)
  }

  /** The flag is set and no exclusive command is running to clear it. */
  predicate Stuck(m: Machine)
  {
    m.running && !ExclusiveRunning(m)
  }

  lemma StepKeepsExclusion(m: Machine, e: HandlerEvent)
    requires Exclusion(m) && !e.Threw?
    requires e.Invoked? ==> e.id !in m.pending
    ensures Exclusion(Step(m, e))
  {
    var n := Step(m, e);
    match e {
      case Invoked(id, exclusive) =>
        if exclusive && !m.running {
          assert n.pending == m.pending[id := true];
          assert n.pending[id];
        } else if !exclusive {
          if m.running {
            var w :| w in m.pending && m.pending[w];
            assert w in n.pending && n.pending[w];
          }
        }
      case Settled(id, outcome) =>
        if id in m.pending && !m.pending[id] && m.running {
          var w :| w in m.pending && m.pending[w];
          assert w in n.pending && n.pending[w];
        }
    }
  }

  /** Every event, a throwing command included, keeps `Guarded`. */
  lemma StepKeepsGuard(m: Machine, e: HandlerEvent)
    requires Guarded(m)
    requires e.Invoked? ==> e.id !in m.pending
    ensures Guarded(Step(m, e))
  {
    var n := Step(m, e);
    match e {
      case Invoked(id, exclusive) =>
        if exclusive && !m.running {
          assert n.pending == m.pending[id := true];
        }
      case Settled(id, outcome) =>
      case Threw(_, _) =>
        assert n.pending == m.pending;
    }
  }

  /** The corrected handler keeps `Exclusion` on every event. */
  lemma StepCorrectedKeepsExclusion(m: Machine, e: HandlerEvent)
    requires Exclusion(m)
    requires e.Invoked? ==> e.id !in m.pending
    ensures Exclusion(StepCorrected(m, e))
  {
    if !e.Threw? {
      StepKeepsExclusion(m, e);
    }
  }

  /** A stuck flag stays stuck whatever happens next. */
  lemma StepKeepsStuck(m: Machine, e: HandlerEvent)
    requires Stuck(m)
    ensures Stuck(Step(m, e))
  {
    var n := Step(m, e);
    match e {
      case Invoked(id, exclusive) =>
        if !exclusive {
          assert n.pending == m.pending[id := false];
        }
      case Settled(id, outcome) =>
      case Threw(_, _) =>
        assert n.pending == m.pending;
    }
  }

  /** Mutual exclusion, with the flag saying whether an exclusive command
      runs, over every well-formed trace in which no command throws. */
  lemma {:induction false} ReplayKeepsExclusion(trace: seq<HandlerEvent>)
    requires WellFormed(trace) && NoThrow(trace)
    ensures Exclusion(Replay(trace))
    decreases |trace|
  {
    if |trace| > 0 {
      var prefix := trace[..|trace| - 1];
      assert NoThrow(prefix) by {
        forall i | 0 <= i < |prefix| ensures !prefix[i].Threw? {
          assert prefix[i] == trace[i];
        }
      }
      ReplayKeepsExclusion(prefix);
      StepKeepsExclusion(Replay(prefix), trace[|trace| - 1]);
    }
  }

  /** Over every well-formed trace, throwing commands included, two
      exclusive commands never run at once and the flag is set while one
      runs. */
  lemma {:induction false} ReplayKeepsGuard(trace: seq<HandlerEvent>)
    requires WellFormed(trace)
    ensures Guarded(Replay(trace))
    decreases |trace|
  {
    if |trace| > 0 {
      var prefix := trace[..|trace| - 1];
      ReplayKeepsGuard(prefix);
      StepKeepsGuard(Replay(prefix), trace[|trace| - 1]);
    }
  }

  /** With the corrected handler, `Exclusion` holds over every well-formed
      trace, throwing commands included. */
  lemma {:induction false} ReplayCorrectedKeepsExclusion(trace: seq<HandlerEvent>)
    requires WellFormed(trace)
    ensures Exclusion(ReplayCorrected(trace))
    decreases |trace|
  {
    if |trace| > 0 {
      var prefix := trace[..|trace| - 1];
      ReplayCorrectedKeepsExclusion(prefix);
      StepCorrectedKeepsExclusion(ReplayCorrected(prefix), trace[|trace| - 1]);
    }
  }

  /** Once the flag is stuck it stays stuck, and every later exclusive
      invocation is turned away. */
  lemma {:induction false} StuckFlagStays(trace: seq<HandlerEvent>, rest: seq<HandlerEvent>)
    requires Stuck(Replay(trace))
    ensures Stuck(Replay(trace + rest))
    ensures !StartStep(true, Replay(trace + rest).running).called
    decreases |rest|
  {
    if |rest| > 0 {
      var r := rest[..|rest| - 1];
      StuckFlagStays(trace, r);
      assert (trace + rest)[..|trace + rest| - 1] == trace + r;
      StepKeepsStuck(Replay(trace + r), rest[|rest| - 1]);
    } else {
      assert trace + rest == trace;
    }
  }

  /** An exclusive command that throws as it starts leaves the flag set
      with nothing running, and from then on every exclusive invocation is
      turned away. */
  lemma ThrowSticksFlag(rest: seq<HandlerEvent>)
    ensures WellFormed([Threw(0, true)])
    ensures Replay([Threw(0, true)]) == Machine(true, map[])
    ensures !Exclusion(Replay([Threw(0, true)]))
    ensures Replay([Threw(0, true)] + rest).running
    ensures !StartStep(true, Replay([Threw(0, true)] + rest).running).called
  {
    assert [Threw(0, true)][..0] == [];
    StuckFlagStays([Threw(0, true)], rest);
  }

  /** An exclusive invocation while one runs is turned away and leaves the
      state as it was. */
  lemma BlockedInvocationChangesNothing(trace: seq<HandlerEvent>, id: nat)
    requires Replay(trace).running
    ensures Replay(trace + [Invoked(id, true)]) == Replay(trace)
  {
    assert (trace + [Invoked(id, true)])[..|trace|] == trace;
  }

  /** A non-exclusive invocation never changes the flag, whether its command
      settles or throws. */
  lemma NonExclusiveKeepsFlag(m: Machine, e: HandlerEvent)
    requires (e.Invoked? || e.Threw?) ==> !e.exclusive
    requires e.Settled? ==> e.id in m.pending && !m.pending[e.id]
    ensures Step(m, e).running == m.running
  {
  }
}
