/** Every interleaving of the client's operations, calls, probes and failures. */
module ConnectionRuns {
  import opened Wrappers
  import opened ConnectionLifecycles
  import opened ChronicleClients

  datatype Kind = Connecting | Recovering

  /** Where a run of an operation stands at its current await. An ended run still has to be cleared from its field. */
  datatype Phase = Leaving | Attempting | Probed | BackingOff | Notifying | Ended

  datatype Run = Run(kind: Kind, phase: Phase)

  /** Where a caller stands that wants a connection: past the first checks, or waiting for a recovery's verdict. */
  datatype Caller = Checked | AwaitsRecovery(run: nat)

  /** What the rejection counter sees. */
  datatype Observation = Probe | Rejection | Terminal | OtherFailure

  datatype Step =
    | Call
    | Admit(caller: nat, refused: bool)
    | Awaited(caller: nat)
    | LoseConnection
    | CallFails(error: ConnectionError)
    | RetryFails(error: ConnectionError)
    | BackgroundFails(error: ConnectionError)
    | Resume(run: nat)
    | ProbeSucceeds(run: nat)
    | AttemptFails(run: nat, error: ConnectionError)
    | MarkConnected(run: nat)
    | Return(run: nat)
    | Clear(run: nat)
    | Dispose
    | OnFailed(handler: Handler)
    | RemoveOnFailed(handler: Handler)

  /**
   * The client, the runs not yet cleared, those whose operation failed, the callers that wait, what was observed so
   * far, the failure handlers registered, and how often each failure handler was invoked. Runs and callers share their
   * numbers.
   */
  datatype Machine = Machine(
    client: Client, hasApiKey: bool, runs: map<nat, Run>, failed: set<nat>, callers: map<nat, Caller>, next: nat,
    log: seq<Observation>, onFailed: set<Handler>, failedCalls: multiset<Handler>)

  function Initial(hasApiKey: bool): Machine {
    Machine(Client(Lifecycle(false, None), None, 0, None, None, false), hasApiKey, map[], {}, map[], 0, [], {},
      multiset{})
  }

  predicate InPhase(m: Machine, run: nat, phases: set<Phase>) {
    run in m.runs && m.runs[run].phase in phases
  }

  predicate Enabled(m: Machine, step: Step) {
    match step
    case Resume(run) => InPhase(m, run, {Leaving, BackingOff})
    case ProbeSucceeds(run) => InPhase(m, run, {Attempting})
    case AttemptFails(run, _) => InPhase(m, run, {Attempting, Probed})
    case MarkConnected(run) => InPhase(m, run, {Probed})
    case Return(run) => InPhase(m, run, {Notifying})
    case Clear(run) => InPhase(m, run, {Ended})
    case Admit(caller, _) => caller in m.callers && m.callers[caller].Checked?
    case Awaited(caller) =>
      caller in m.callers && m.callers[caller].AwaitsRecovery? && m.callers[caller].run !in m.runs
    case _ => true
  }

  function Observed(hasApiKey: bool, error: ConnectionError): Observation {
    if IsTerminal(error) then Terminal else if IsCredentialRejection(hasApiKey, error) then Rejection else OtherFailure
  }

  /** The head of a retry loop: another attempt, unless the client is disposed. */
  function LoopHead(c: Client): Phase {
    if c.isDisposed then Ended else Attempting
  }

  /** A failure classified: counted, noted, and given up on when it is terminal. */
  function Classify(m: Machine, error: ConnectionError): Machine {
    var client := Classified(m.client, m.hasApiKey, error);
    m.(client := client, log := m.log + [Observed(m.hasApiKey, error)],
       failedCalls := m.failedCalls + multiset(InvokedByCatch(m.client, m.hasApiKey, error, m.onFailed)))
  }

  function Abandon(m: Machine, error: ConnectionError): Machine {
    m.(client := GiveUp(m.client, error),
       failedCalls := m.failedCalls + multiset(InvokedByFailure(m.client.lifecycle, m.onFailed)))
  }

  function Recover(m: Machine): Machine {
    if ReconnectWait(m.client, m.next).Starts? then
      var client := Left(m.client).(reconnectOperation := Some(m.next));
      var phase := if m.client.lifecycle.isConnected then Leaving else LoopHead(m.client);
      m.(client := client, runs := m.runs[m.next := Run(Recovering, phase)], next := m.next + 1)
    else m
  }

  /** A caller that found no recovery to wait for: it starts a connect run unless there is a connection or a run. */
  function EnsureConnected(m: Machine): Machine {
    if EnsureWait(m.client, m.next).Starts? then
      m.(client := m.client.(connectOperation := Some(m.next)),
         runs := m.runs[m.next := Run(Connecting, LoopHead(m.client))], next := m.next + 1)
    else m
  }

  function InNewPhase(m: Machine, run: nat, phase: Phase): Machine
    requires run in m.runs
  {
    m.(runs := m.runs[run := m.runs[run].(phase := phase)])
  }

  function Next(m: Machine, step: Step): Machine
    requires Enabled(m, step)
  {
    match step
    case Call =>
      if m.client.isDisposed || m.client.connectionFailure.Some? then m
      else m.(callers := m.callers[m.next := Checked], next := m.next + 1)
    case Admit(caller, refused) =>
      if refused then m.(callers := m.callers - {caller})
      else if m.client.reconnectOperation.Some? then
        m.(callers := m.callers[caller := AwaitsRecovery(m.client.reconnectOperation.value)])
      else EnsureConnected(m.(callers := m.callers - {caller}))
    case Awaited(caller) =>
      var gone := m.(callers := m.callers - {caller});
      if m.callers[caller].run in m.failed then gone else EnsureConnected(gone)
    case LoseConnection => Recover(m)
    case CallFails(error) =>
      var classified := Classify(m, error);
      if GivesUp(m.client, m.hasApiKey, error) || !ShouldReconnect(m.hasApiKey, error) then classified
        else Recover(classified)
    case RetryFails(error) => Classify(m, error)
    case BackgroundFails(error) => Abandon(m, error)
    case Resume(run) => InNewPhase(m, run, LoopHead(m.client))
    case ProbeSucceeds(run) => InNewPhase(m.(client := m.client.(rejections := 0), log := m.log + [Probe]), run, Probed)
    case AttemptFails(run, error) =>
      if GivesUp(m.client, m.hasApiKey, error)
      then InNewPhase(Classify(m, error).(failed := m.failed + {run}), run, Ended)
      else InNewPhase(Classify(m, error), run, BackingOff)
    case MarkConnected(run) =>
      InNewPhase(m.(client := m.client.(lifecycle := Connected(m.client.lifecycle))), run, Notifying)
    case Return(run) => InNewPhase(m, run, Ended)
    case Clear(run) =>
      var cleared := m.(runs := m.runs - {run});
      if m.runs[run].kind.Connecting? then cleared.(client := m.client.(connectOperation := None))
      else cleared.(client := m.client.(reconnectOperation := None))
    case Dispose => m.(client := Left(m.client).(isDisposed := true))
    case OnFailed(handler) => m.(onFailed := m.onFailed + {handler})
    case RemoveOnFailed(handler) => m.(onFailed := m.onFailed - {handler})
  }

  predicate IsRun(m: Machine, steps: seq<Step>)
    decreases |steps|
  {
    steps == [] || (Enabled(m, steps[0]) && IsRun(Next(m, steps[0]), steps[1..]))
  }

  function After(m: Machine, steps: seq<Step>): Machine
    requires IsRun(m, steps)
    decreases |steps|
  {
    if steps == [] then m else After(Next(m, steps[0]), steps[1..])
  }

  /**
   * The credential rejections since the last successful probe or other failure; terminal server errors do not count
   * either way.
   */
  function TrailingRejections(log: seq<Observation>): nat {
    if log == [] then 0
    else match log[|log| - 1]
      case Rejection => TrailingRejections(log[..|log| - 1]) + 1
      case Terminal => TrailingRejections(log[..|log| - 1])
      case _ => 0
  }

  ghost predicate Inv(m: Machine) {
    && (m.client.lifecycle.failure.Some? ==> !m.client.lifecycle.isConnected && m.client.connectionFailure.Some?)
    && (m.client.lifecycle.failure.None? ==> m.failedCalls == multiset{})
    && (forall run :: run in m.runs && m.runs[run].kind.Connecting? ==> m.client.connectOperation == Some(run))
    && (forall run :: run in m.runs && m.runs[run].kind.Recovering? ==> m.client.reconnectOperation == Some(run))
    && (m.client.connectOperation.Some? ==>
       m.client.connectOperation.value in m.runs && m.runs[m.client.connectOperation.value].kind.Connecting?)
    && (m.client.reconnectOperation.Some? ==>
       m.client.reconnectOperation.value in m.runs && m.runs[m.client.reconnectOperation.value].kind.Recovering?)
    && (forall run :: run in m.runs ==> run < m.next)
    && m.client.rejections == TrailingRejections(m.log)
  }

  lemma {:induction false} ClassifyKeepsInv(m: Machine, error: ConnectionError)
    requires Inv(m)
    ensures Inv(Classify(m, error))
  {
    assert Classify(m, error).log[..|m.log|] == m.log;
  }

  lemma {:induction false} RecoverKeepsInv(m: Machine)
    requires Inv(m)
    ensures Inv(Recover(m))
  {
  }

  lemma {:induction false} PhaseKeepsInv(m: Machine, run: nat, phase: Phase)
    requires Inv(m) && run in m.runs
    ensures Inv(InNewPhase(m, run, phase))
  {
  }

  lemma {:induction false} ClearKeepsInv(m: Machine, run: nat)
    requires Inv(m) && Enabled(m, Clear(run))
    ensures Inv(Next(m, Clear(run)))
  {
  }

  lemma {:induction false} ProbeKeepsInv(m: Machine)
    requires Inv(m)
    ensures Inv(m.(client := m.client.(rejections := 0), log := m.log + [Probe]))
  {
  }

  lemma {:induction false} ConnectedKeepsInv(m: Machine)
    requires Inv(m)
    ensures Inv(m.(client := m.client.(lifecycle := Connected(m.client.lifecycle))))
  {
  }

  lemma {:induction false} CallersKeepInv(m: Machine, callers: map<nat, Caller>, next: nat)
    requires Inv(m) && m.next <= next
    ensures Inv(m.(callers := callers, next := next))
    ensures Inv(EnsureConnected(m.(callers := callers, next := next)))
  {
    hide TrailingRejections;
  }

  lemma {:induction false} OwnStepKeepsInv(m: Machine, step: Step)
    requires Inv(m)
    requires step.BackgroundFails? || step.Dispose? || step.OnFailed? || step.RemoveOnFailed?
    ensures Inv(Next(m, step))
  {
    hide TrailingRejections, Classify, Recover, InNewPhase;
  }

  lemma {:induction false} FailedKeepsInv(m: Machine, run: nat)
    requires Inv(m)
    ensures Inv(m.(failed := m.failed + {run}))
  {
  }

  lemma {:induction false} StepKeepsInv(m: Machine, step: Step)
    requires Inv(m) && Enabled(m, step)
    ensures Inv(Next(m, step))
  {
    hide Classified, TrailingRejections, GivesUp, ShouldReconnect, Recover, InNewPhase, EnsureConnected, Inv;
    match step
    case Call => CallersKeepInv(m, m.callers[m.next := Checked], m.next + 1);
    case Admit(caller, _) =>
      CallersKeepInv(m, m.callers - {caller}, m.next);
      if m.client.reconnectOperation.Some? {
        CallersKeepInv(m, m.callers[caller := AwaitsRecovery(m.client.reconnectOperation.value)], m.next);
      }
    case Awaited(caller) => CallersKeepInv(m, m.callers - {caller}, m.next);
    case Clear(run) => ClearKeepsInv(m, run);
    case LoseConnection => RecoverKeepsInv(m);
    case CallFails(error) =>
      ClassifyKeepsInv(m, error);
      RecoverKeepsInv(Classify(m, error));
    case RetryFails(error) => ClassifyKeepsInv(m, error);
    case Resume(run) => PhaseKeepsInv(m, run, LoopHead(m.client));
    case ProbeSucceeds(run) =>
      ProbeKeepsInv(m);
      PhaseKeepsInv(m.(client := m.client.(rejections := 0), log := m.log + [Probe]), run, Probed);
    case AttemptFails(run, error) =>
      ClassifyKeepsInv(m, error);
      FailedKeepsInv(Classify(m, error), run);
      PhaseKeepsInv(Classify(m, error).(failed := m.failed + {run}), run, Ended);
      PhaseKeepsInv(Classify(m, error), run, BackingOff);
    case MarkConnected(run) =>
      ConnectedKeepsInv(m);
      PhaseKeepsInv(m.(client := m.client.(lifecycle := Connected(m.client.lifecycle))), run, Notifying);
    case Return(run) => PhaseKeepsInv(m, run, Ended);
    case _ => OwnStepKeepsInv(m, step);
  }

  lemma {:induction false} StartsWell(hasApiKey: bool)
    ensures Inv(Initial(hasApiKey))
  {
  }

  lemma {:induction false} RunKeepsInv(m: Machine, steps: seq<Step>)
    requires Inv(m) && IsRun(m, steps)
    ensures Inv(After(m, steps))
    decreases |steps|
  {
    if steps != [] {
      StepKeepsInv(m, steps[0]);
      RunKeepsInv(Next(m, steps[0]), steps[1..]);
    }
  }

  /** In every interleaving at most one connect run and at most one recovery run are not over. */
  lemma {:induction false} OneRunOfEachKind(hasApiKey: bool, steps: seq<Step>, kind: Kind)
    requires IsRun(Initial(hasApiKey), steps)
    ensures var m := After(Initial(hasApiKey), steps);
            |set run | run in m.runs && m.runs[run].kind == kind| <= 1
  {
    RunKeepsInv(Initial(hasApiKey), steps);
    var m := After(Initial(hasApiKey), steps);
    var runs := set run | run in m.runs && m.runs[run].kind == kind;
    if runs != {} {
      var run :| run in runs;
      assert runs == {run};
    }
  }

  lemma {:induction false} ClassifiedKeepsFailure(c: Client, hasApiKey: bool, error: ConnectionError)
    requires c.lifecycle.failure.Some? && c.connectionFailure.Some?
    ensures Classified(c, hasApiKey, error).lifecycle == c.lifecycle
            && Classified(c, hasApiKey, error).connectionFailure.Some?
  {
  }

  lemma {:induction false} StepKeepsFailure(m: Machine, step: Step)
    requires Inv(m) && Enabled(m, step) && m.client.lifecycle.failure.Some?
    ensures Next(m, step).client.lifecycle == m.client.lifecycle && Next(m, step).client.connectionFailure.Some?
  {
    hide TrailingRejections, GivesUp, ShouldReconnect, Classified, LoopHead, Observed;
    if step.CallFails? || step.RetryFails? || step.AttemptFails? {
      ClassifiedKeepsFailure(m.client, m.hasApiKey, step.error);
    }
  }

  lemma {:induction false} FailureStays(m: Machine, steps: seq<Step>)
    requires Inv(m) && IsRun(m, steps) && m.client.lifecycle.failure.Some?
    ensures After(m, steps).client.lifecycle == Lifecycle(false, m.client.lifecycle.failure)
    decreases |steps|
  {
    if steps != [] {
      StepKeepsInv(m, steps[0]);
      StepKeepsFailure(m, steps[0]);
      FailureStays(Next(m, steps[0]), steps[1..]);
    }
  }

  /** Once the lifecycle records a failure, no continuation of the run changes it or connects again. */
  lemma {:induction false} FailureIsFinal(hasApiKey: bool, before: seq<Step>, further: seq<Step>)
    requires IsRun(Initial(hasApiKey), before) && IsRun(After(Initial(hasApiKey), before), further)
    requires After(Initial(hasApiKey), before).client.lifecycle.failure.Some?
    ensures After(After(Initial(hasApiKey), before), further).client.lifecycle
         == Lifecycle(false, After(Initial(hasApiKey), before).client.lifecycle.failure)
  {
    RunKeepsInv(Initial(hasApiKey), before);
    FailureStays(After(Initial(hasApiKey), before), further);
  }

  lemma {:induction false} ClassifyAnnounces(m: Machine, error: ConnectionError)
    requires Inv(m)
    ensures Classify(m, error).failedCalls == m.failedCalls + multiset(Announced(m, Classify(m, error)))
    ensures Classify(m, error).onFailed == m.onFailed
  {
    hide TrailingRejections, Inv, Observed, IsCredentialRejection;
  }

  /** The failure handlers that a step from one state to another invokes. */
  function Announced(m: Machine, after: Machine): set<Handler> {
    if m.client.lifecycle.failure.None? && after.client.lifecycle.failure.Some? then m.onFailed else {}
  }

  lemma {:induction false} RecoverAnnouncesNothing(m: Machine)
    ensures Recover(m).failedCalls == m.failedCalls && Recover(m).client.lifecycle.failure == m.client.lifecycle.failure
  {
  }

  /** A step invokes failure handlers only when it is the one that records the failure, and then those registered. */
  lemma {:induction false} StepAnnounces(m: Machine, step: Step)
    requires Inv(m) && Enabled(m, step)
    ensures Next(m, step).failedCalls == m.failedCalls + multiset(Announced(m, Next(m, step)))
  {
    hide Inv, ShouldReconnect, LoopHead, GivesUp, Classify, Recover;
    match step
    case CallFails(error) =>
      ClassifyAnnounces(m, error);
      RecoverAnnouncesNothing(Classify(m, error));
    case RetryFails(error) => ClassifyAnnounces(m, error);
    case AttemptFails(_, error) => ClassifyAnnounces(m, error);
    case LoseConnection => RecoverAnnouncesNothing(m);
    case _ =>
  }

  lemma {:induction false} NothingMoreIsAnnounced(m: Machine, steps: seq<Step>)
    requires Inv(m) && IsRun(m, steps) && m.client.lifecycle.failure.Some?
    ensures After(m, steps).failedCalls == m.failedCalls
    decreases |steps|
  {
    hide Inv, Next;
    if steps != [] {
      StepKeepsInv(m, steps[0]);
      StepKeepsFailure(m, steps[0]);
      StepAnnounces(m, steps[0]);
      NothingMoreIsAnnounced(Next(m, steps[0]), steps[1..]);
    }
  }

  /** While no failure is recorded no failure handler has been invoked. */
  lemma {:induction false} NoFailureIsAnnounced(hasApiKey: bool, steps: seq<Step>)
    requires IsRun(Initial(hasApiKey), steps) && After(Initial(hasApiKey), steps).client.lifecycle.failure.None?
    ensures After(Initial(hasApiKey), steps).failedCalls == multiset{}
  {
    RunKeepsInv(Initial(hasApiKey), steps);
  }

  /**
   * Once a step has recorded a failure, each handler registered just before it has been invoked once and no other has,
   * whatever failures and registrations follow.
   */
  lemma {:induction false} FailureIsAnnouncedOnce(hasApiKey: bool, before: seq<Step>, step: Step, further: seq<Step>)
    requires IsRun(Initial(hasApiKey), before)
    requires var m := After(Initial(hasApiKey), before);
             && m.client.lifecycle.failure.None? && Enabled(m, step)
             && Next(m, step).client.lifecycle.failure.Some? && IsRun(Next(m, step), further)
    ensures var m := After(Initial(hasApiKey), before);
            After(Next(m, step), further).failedCalls == multiset(m.onFailed)
  {
    hide Inv, Next, IsRun, After;
    StartsWell(hasApiKey);
    RunKeepsInv(Initial(hasApiKey), before);
    var m := After(Initial(hasApiKey), before);
    NoFailureIsAnnounced(hasApiKey, before);
    StepKeepsInv(m, step);
    StepAnnounces(m, step);
    NothingMoreIsAnnounced(Next(m, step), further);
  }

  // ----- the rejection counter -----

  function Counted(log: seq<Observation>): seq<Observation> {
    if log == [] then []
    else if log[|log| - 1].Terminal? then Counted(log[..|log| - 1])
    else Counted(log[..|log| - 1]) + [log[|log| - 1]]
  }

  /** The counted observations end in exactly `n` rejections. */
  ghost predicate EndsInRejections(counted: seq<Observation>, n: nat) {
    && n <= |counted|
    && (forall i :: |counted| - n <= i < |counted| ==> counted[i].Rejection?)
    && (n < |counted| ==> !counted[|counted| - n - 1].Rejection?)
  }

  lemma {:induction false} TrailingIsTheEnd(log: seq<Observation>)
    ensures EndsInRejections(Counted(log), TrailingRejections(log))
  {
    if log != [] {
      TrailingIsTheEnd(log[..|log| - 1]);
    }
  }

  lemma {:induction false} OneEnd(counted: seq<Observation>, n: nat, k: nat)
    requires EndsInRejections(counted, n) && EndsInRejections(counted, k)
    ensures n == k
  {
  }

  /**
   * In every interleaving, a failure that is no terminal server error creates the rejected-credentials error exactly
   * when it is the third of an unbroken row of credential rejections.
   */
  lemma {:induction false} ThirdRejectionGivesUp(hasApiKey: bool, steps: seq<Step>, error: ConnectionError)
    requires IsRun(Initial(hasApiKey), steps) && !IsTerminal(error)
    ensures var m := After(Initial(hasApiKey), steps);
            GivesUp(m.client, hasApiKey, error)
            <==> EndsInRejections(Counted(m.log + [Observed(hasApiKey, error)]), REJECTIONS_TO_GIVE_UP)
    ensures var m := After(Initial(hasApiKey), steps);
            GivesUp(m.client, hasApiKey, error) ==>
              Classified(m.client, hasApiKey, error).connectionFailure == Some(RejectedCredentials(error))
  {
    hide Inv, IsRun, Next, GivesUp, EndsInRejections, Counted, Classified;
    StartsWell(hasApiKey);
    RunKeepsInv(Initial(hasApiKey), steps);
    var m := After(Initial(hasApiKey), steps);
    SameApiKey(Initial(hasApiKey), steps);
    ThirdInARow(m, error);
  }

  lemma {:induction false} SameApiKey(m: Machine, steps: seq<Step>)
    requires IsRun(m, steps)
    ensures After(m, steps).hasApiKey == m.hasApiKey
    decreases |steps|
  {
    if steps != [] {
      SameApiKey(Next(m, steps[0]), steps[1..]);
    }
  }

  lemma {:induction false} ThirdInARow(m: Machine, error: ConnectionError)
    requires Inv(m) && !IsTerminal(error)
    ensures GivesUp(m.client, m.hasApiKey, error)
      <==> EndsInRejections(Counted(m.log + [Observed(m.hasApiKey, error)]), REJECTIONS_TO_GIVE_UP)
    ensures GivesUp(m.client, m.hasApiKey, error)
      ==> Classified(m.client, m.hasApiKey, error).connectionFailure == Some(RejectedCredentials(error))
  {
    var log := m.log + [Observed(m.hasApiKey, error)];
    assert log[..|m.log|] == m.log;
    TrailingIsTheEnd(log);
    if EndsInRejections(Counted(log), REJECTIONS_TO_GIVE_UP) {
      OneEnd(Counted(log), TrailingRejections(log), REJECTIONS_TO_GIVE_UP);
    }
  }

  /** After a failure no recovery starts any more. */
  lemma {:induction false} NoRecoveryAfterFailure(m: Machine, step: Step)
    requires Enabled(m, step) && m.client.connectionFailure.Some?
    ensures forall run :: run in Next(m, step).runs && Next(m, step).runs[run].kind.Recovering? ==> run in m.runs
  {
  }

  // ----- competing runs -----

  /** A connect run and a recovery run are both under way. */
  predicate Competing(m: Machine) {
    m.client.connectOperation.Some? && m.client.reconnectOperation.Some?
  }

  /** The step starts a recovery. */
  predicate StartsRecovery(m: Machine, step: Step) {
    && ReconnectWait(m.client, m.next).Starts?
    && match step
       case LoseConnection => true
       case CallFails(error) => !GivesUp(m.client, m.hasApiKey, error) && ShouldReconnect(m.hasApiKey, error)
       case _ => false
  }

  /**
   * The step lets a caller go on to connect whose recovery succeeded, although another recovery is under way by now.
   */
  predicate OutlivesItsRecovery(m: Machine, step: Step)
    requires Enabled(m, step)
  {
    && step.Awaited? && m.callers[step.caller].run !in m.failed
    && m.client.reconnectOperation.Some? && m.client.reconnectOperation.value != m.callers[step.caller].run
    && !m.client.lifecycle.isConnected
  }

  /**
   * When a connect run and a recovery come to compete: exactly when a recovery starts beside a connect run, or a caller
   * that waited for one recovery goes on while the next one is under way. A caller that arrives during a recovery waits
   * for it and starts nothing beside it.
   */
  lemma {:induction false} CompetingExactly(m: Machine, step: Step)
    requires Inv(m) && Enabled(m, step) && !Competing(m)
    ensures Competing(Next(m, step)) <==>
            (m.client.connectOperation.Some? && StartsRecovery(m, step)) || OutlivesItsRecovery(m, step)
    ensures step.Admit? ==> !Competing(Next(m, step))
  {
    hide TrailingRejections, LoopHead, ShouldReconnect, Classify, Recover, GivesUp, ReconnectWait;
    match step
    case LoseConnection => RecoverOperations(m);
    case CallFails(error) =>
      ClassifyKeepsOperations(m, error);
      RecoverOperations(Classify(m, error));
    case RetryFails(error) => ClassifyKeepsOperations(m, error);
    case AttemptFails(_, error) => ClassifyKeepsOperations(m, error);
    case _ =>
  }

  lemma {:induction false} ClassifyKeepsOperations(m: Machine, error: ConnectionError)
    ensures var c := Classify(m, error).client;
            && c.connectOperation == m.client.connectOperation && c.reconnectOperation == m.client.reconnectOperation
            && Classify(m, error).next == m.next
            && (!GivesUp(m.client, m.hasApiKey, error) ==>
                  (ReconnectWait(c, m.next).Starts? <==> ReconnectWait(m.client, m.next).Starts?))
  {
    hide IsCredentialRejection, Observed;
  }

  lemma {:induction false} RecoverOperations(m: Machine)
    ensures Recover(m).client.connectOperation == m.client.connectOperation
    ensures Recover(m).client.reconnectOperation.Some? <==>
            m.client.reconnectOperation.Some? || ReconnectWait(m.client, m.next).Starts?
  {
  }

  /** The same over every run: whenever the two compete and did not before, it came about in one of these ways. */
  lemma {:induction false} CompetitionBegins(hasApiKey: bool, steps: seq<Step>, step: Step)
    requires IsRun(Initial(hasApiKey), steps)
    requires var m := After(Initial(hasApiKey), steps); Enabled(m, step) && !Competing(m)
    ensures var m := After(Initial(hasApiKey), steps);
            Competing(Next(m, step)) <==>
            (m.client.connectOperation.Some? && StartsRecovery(m, step)) || OutlivesItsRecovery(m, step)
  {
    hide Inv, Next, Competing, StartsRecovery, OutlivesItsRecovery;
    StartsWell(hasApiKey);
    RunKeepsInv(Initial(hasApiKey), steps);
    CompetingExactly(After(Initial(hasApiKey), steps), step);
  }

  lemma {:induction false} NoSteps(m: Machine)
    ensures IsRun(m, []) && After(m, []) == m
  {
  }

  lemma {:induction false} OneStepBefore(m: Machine, step: Step, rest: seq<Step>)
    requires Enabled(m, step) && IsRun(Next(m, step), rest)
    ensures IsRun(m, [step] + rest) && After(m, [step] + rest) == After(Next(m, step), rest)
  {
    hide Next, Enabled;
    assert ([step] + rest)[1..] == rest;
  }

  /** A call fails for want of the server while the client connects: a recovery starts beside the connect run. */
  lemma {:induction false} RecoveryBesideConnecting(hasApiKey: bool)
    ensures var steps := [Call] + ([Admit(0, false)] + ([CallFails(Remote(14, None, false))] + []));
            IsRun(Initial(hasApiKey), steps) && Competing(After(Initial(hasApiKey), steps))
  {
    var error := Remote(14, None, false);
    var m := Initial(hasApiKey);
    var called := Next(m, Call);
    var connecting := Next(called, Admit(0, false));
    assert connecting.client == m.client.(connectOperation := Some(1));
    var both := Next(connecting, CallFails(error));
    assert ShouldReconnect(hasApiKey, error) && !GivesUp(connecting.client, hasApiKey, error);
    ClassifyKeepsOperations(connecting, error);
    RecoverOperations(Classify(connecting, error));
    assert Competing(both);
    OneStepBefore(connecting, CallFails(error), []);
    OneStepBefore(called, Admit(0, false), [CallFails(error)] + []);
    OneStepBefore(m, Call, [Admit(0, false)] + ([CallFails(error)] + []));
  }

  lemma {:induction false} RunsAppend(m: Machine, first: seq<Step>, second: seq<Step>)
    requires IsRun(m, first) && IsRun(After(m, first), second)
    ensures IsRun(m, first + second) && After(m, first + second) == After(After(m, first), second)
    decreases |first|
  {
    hide Next, Enabled;
    if first == [] {
      assert first + second == second;
    } else {
      RunsAppend(Next(m, first[0]), first[1..], second);
      assert (first + second)[1..] == first[1..] + second;
    }
  }

  /** The connection is lost, and a caller comes and waits for the recovery. */
  lemma {:induction false} CallerWaits(hasApiKey: bool)
    ensures var steps, m := [LoseConnection] + ([Call] + ([Admit(1, false)] + [])), Initial(hasApiKey);
            && IsRun(m, steps)
            && After(m, steps) == m.(client := m.client.(reconnectOperation := Some(0)), next := 2,
                 runs := map[0 := Run(Recovering, Attempting)], callers := map[1 := AwaitsRecovery(0)])
  {
    var m := Initial(hasApiKey);
    var lost := Next(m, LoseConnection);
    assert lost == m.(client := m.client.(reconnectOperation := Some(0)), next := 1,
      runs := map[0 := Run(Recovering, Attempting)]);
    var called := Next(lost, Call);
    assert called == lost.(callers := map[1 := Checked], next := 2);
    OneStepBefore(called, Admit(1, false), []);
    OneStepBefore(lost, Call, [Admit(1, false)] + []);
    OneStepBefore(m, LoseConnection, [Call] + ([Admit(1, false)] + []));
  }

  /** The recovery connects. */
  lemma {:induction false} RecoveryConnects(m: Machine)
    requires m.runs == map[0 := Run(Recovering, Attempting)]
    ensures var steps := [ProbeSucceeds(0)] + ([MarkConnected(0)] + []);
            && IsRun(m, steps)
            && After(m, steps) == m.(runs := map[0 := Run(Recovering, Notifying)], log := m.log + [Probe],
                 client := m.client.(rejections := 0, lifecycle := Connected(m.client.lifecycle)))
  {
    hide IsRun, After;
    var probed := Next(m, ProbeSucceeds(0));
    assert probed.runs == map[0 := Run(Recovering, Probed)];
    var connected := Next(probed, MarkConnected(0));
    assert connected.runs == map[0 := Run(Recovering, Notifying)];
    NoSteps(connected);
    OneStepBefore(probed, MarkConnected(0), []);
    OneStepBefore(m, ProbeSucceeds(0), [MarkConnected(0)] + []);
  }

  /** The recovery is over and cleared. */
  lemma {:induction false} RecoveryEnds(m: Machine)
    requires m.runs == map[0 := Run(Recovering, Notifying)]
    ensures var steps := [Return(0)] + ([Clear(0)] + []);
            && IsRun(m, steps)
            && After(m, steps) == m.(runs := map[], client := m.client.(reconnectOperation := None))
  {
    hide IsRun, After;
    var ended := Next(m, Return(0));
    assert ended.runs == map[0 := Run(Recovering, Ended)];
    var cleared := Next(ended, Clear(0));
    assert cleared.runs == map[];
    NoSteps(cleared);
    OneStepBefore(ended, Clear(0), []);
    OneStepBefore(m, Return(0), [Clear(0)] + []);
  }

  /** The connection is lost again, and the caller goes on beside the next recovery. */
  lemma {:induction false} CallerGoesOn(m: Machine)
    requires m.callers == map[1 := AwaitsRecovery(0)] && m.runs == map[] && m.failed == {} && m.next == 2
    requires m.client.connectOperation.None? && m.client.reconnectOperation.None? && m.client.connectionFailure.None?
    ensures var steps := [LoseConnection] + ([Awaited(1)] + []);
            IsRun(m, steps) && Competing(After(m, steps))
  {
    var lost := Next(m, LoseConnection);
    assert lost.client.reconnectOperation == Some(2) && !lost.client.lifecycle.isConnected;
    assert OutlivesItsRecovery(lost, Awaited(1));
    OneStepBefore(lost, Awaited(1), []);
    OneStepBefore(m, LoseConnection, [Awaited(1)] + []);
  }

  /** A caller waits for a recovery, another one starts once that is over, and the caller goes on beside it. */
  lemma {:induction false} CallerBetweenRecoveries(hasApiKey: bool) returns (steps: seq<Step>)
    ensures IsRun(Initial(hasApiKey), steps) && Competing(After(Initial(hasApiKey), steps))
    ensures steps != [] && steps[|steps| - 1] == Awaited(1)
  {
    hide Next, Enabled;
    var waits := [LoseConnection] + ([Call] + ([Admit(1, false)] + []));
    var connects, ends := [ProbeSucceeds(0)] + ([MarkConnected(0)] + []), [Return(0)] + ([Clear(0)] + []);
    var goesOn := [LoseConnection] + ([Awaited(1)] + []);
    var m := Initial(hasApiKey);
    CallerWaits(hasApiKey);
    RecoveryConnects(After(m, waits));
    RunsAppend(m, waits, connects);
    RecoveryEnds(After(m, waits + connects));
    RunsAppend(m, waits + connects, ends);
    CallerGoesOn(After(m, waits + connects + ends));
    RunsAppend(m, waits + connects + ends, goesOn);
    steps := waits + connects + ends + goesOn;
  }
}
