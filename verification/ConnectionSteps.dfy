/** What each step of the client's connection does to the runs, the operations, the callers and the client. */
module ConnectionSteps {
  import opened Wrappers
  import opened ConnectionLifecycles
  import opened ChronicleClients
  import opened ConnectionRuns

  /** The head of a retry loop: a disposed client makes no further attempt. */
  ghost function NextAttempt(m: Machine): Phase {
    if m.client.isDisposed then Ended else Attempting
  }

  /** A failed call that is worth a recovery, or a lost connection, starts one unless one is under way. */
  ghost predicate StartsRecovering(m: Machine, step: Step) {
    && m.client.connectionFailure.None? && m.client.reconnectOperation.None?
    && match step
       case LoseConnection => true
       case CallFails(error) => !GivesUp(m.client, m.hasApiKey, error) && ShouldReconnect(m.hasApiKey, error)
       case _ => false
  }

  /** A caller that does not or no longer waits for a recovery starts connecting, unless there is no need to. */
  ghost predicate StartsConnecting(m: Machine, step: Step)
    requires Enabled(m, step)
  {
    && !m.client.lifecycle.isConnected && m.client.connectOperation.None?
    && match step
       case Admit(_, refused) => !refused && m.client.reconnectOperation.None?
       case Awaited(caller) => m.callers[caller].run !in m.failed
       case _ => false
  }

  /** The phase a step leaves a run in. */
  ghost function PhaseAfter(m: Machine, step: Step, run: nat): Phase
    requires run in m.runs
  {
    match step
    case Resume(r) => if r == run then NextAttempt(m) else m.runs[run].phase
    case ProbeSucceeds(r) => if r == run then Probed else m.runs[run].phase
    case AttemptFails(r, error) =>
      if r != run then m.runs[run].phase
      else if GivesUp(m.client, m.hasApiKey, error) then Ended else BackingOff
    case MarkConnected(r) => if r == run then Notifying else m.runs[run].phase
    case Return(r) => if r == run then Ended else m.runs[run].phase
    case _ => m.runs[run].phase
  }

  /** A step moves the run it names on to its next phase or clears it, and leaves every other run alone. */
  lemma {:induction false} RunsByStep(m: Machine, step: Step, run: nat)
    requires Inv(m) && Enabled(m, step) && run in m.runs
    ensures run in Next(m, step).runs <==> step != Clear(run)
    ensures step != Clear(run) ==>
              Next(m, step).runs[run] == Run(m.runs[run].kind, PhaseAfter(m, step, run))
  {
    hide Classify, GivesUp, ShouldReconnect, TrailingRejections, Recover, EnsureConnected, LoopHead, GiveUp, Left,
      Connected, Inv;
    RunIsNumbered(m, run);
    NewRunsLeaveOthers(m, run);
    if Fails(step) {
      ClassifyLeavesRuns(m, step.error);
      NewRunsLeaveOthers(Classify(m, step.error), run);
    }
    if step.Admit? || step.Awaited? {
      NewRunsLeaveOthers(m.(callers := m.callers - {step.caller}), run);
    }
    HeadIsNextAttempt(m);
  }

  lemma {:induction false} RunIsNumbered(m: Machine, run: nat)
    requires Inv(m) && run in m.runs
    ensures run < m.next
  {
  }

  lemma {:induction false} HeadIsNextAttempt(m: Machine)
    ensures LoopHead(m.client) == NextAttempt(m)
  {
  }

  lemma {:induction false} ClassifyLeavesRuns(m: Machine, error: ConnectionError)
    ensures Classify(m, error).runs == m.runs && Classify(m, error).next == m.next
  {
    hide Classified;
  }

  lemma {:induction false} NewRunsLeaveOthers(m: Machine, run: nat)
    requires run < m.next && run in m.runs
    ensures run in Recover(m).runs && Recover(m).runs[run] == m.runs[run]
    ensures run in EnsureConnected(m).runs && EnsureConnected(m).runs[run] == m.runs[run]
  {
  }

  /** The runs that come into being: a recovery that leaves the connection first if there is one, or a connect run. */
  lemma {:induction false} NewRunsByStep(m: Machine, step: Step, run: nat)
    requires Inv(m) && Enabled(m, step) && run !in m.runs
    ensures run in Next(m, step).runs <==>
            run == m.next && (StartsRecovering(m, step) || StartsConnecting(m, step))
    ensures run == m.next && StartsRecovering(m, step) ==>
              Next(m, step).runs[run]
              == Run(Recovering, if m.client.lifecycle.isConnected then Leaving else NextAttempt(m))
    ensures run == m.next && StartsConnecting(m, step) ==> Next(m, step).runs[run] == Run(Connecting, NextAttempt(m))
  {
    hide GivesUp, ShouldReconnect, TrailingRejections, Inv, Classified;
    if step.CallFails? {
      ClassifyLeavesTheRest(m, step.error);
    }
  }

  /** A failure that does not end the connection touches nothing but the count. */
  lemma {:induction false} ClassifyLeavesTheRest(m: Machine, error: ConnectionError)
    ensures var after := Classify(m, error).client;
            && after.connectOperation == m.client.connectOperation
            && after.reconnectOperation == m.client.reconnectOperation && after.isDisposed == m.client.isDisposed
            && (!GivesUp(m.client, m.hasApiKey, error) ==>
                  after.lifecycle == m.client.lifecycle && after.connectionFailure == m.client.connectionFailure)
  {
    hide IsCredentialRejection, Observed;
  }

  /** The operations: each is set by the step that starts its run and cleared with that run, and the numbers go on. */
  lemma {:induction false} OperationsByStep(m: Machine, step: Step)
    requires Enabled(m, step)
    ensures Next(m, step).client.connectOperation
         == if StartsConnecting(m, step) then Some(m.next)
            else if step.Clear? && m.runs[step.run].kind.Connecting? then None
            else m.client.connectOperation
    ensures Next(m, step).client.reconnectOperation
         == if StartsRecovering(m, step) then Some(m.next)
            else if step.Clear? && m.runs[step.run].kind.Recovering? then None
            else m.client.reconnectOperation
    ensures Next(m, step).next
         == if StartsConnecting(m, step) || StartsRecovering(m, step)
               || (step.Call? && !m.client.isDisposed && m.client.connectionFailure.None?) then m.next + 1
            else m.next
  {
    hide GivesUp, ShouldReconnect, Classified;
    if step.CallFails? || step.RetryFails? || step.AttemptFails? {
      ClassifyLeavesTheRest(m, step.error);
    }
  }

  /**
   * The callers: a call is taken unless the client is disposed or has failed; one that is refused, goes on or gets its
   * verdict is gone; one that arrives during a recovery waits for it.
   */
  lemma {:induction false} CallersByStep(m: Machine, step: Step)
    requires Enabled(m, step)
    ensures Next(m, step).callers
         == match step
            case Call =>
              if m.client.isDisposed || m.client.connectionFailure.Some? then m.callers
              else m.callers[m.next := Checked]
            case Admit(caller, refused) =>
              if !refused && m.client.reconnectOperation.Some? then
                m.callers[caller := AwaitsRecovery(m.client.reconnectOperation.value)]
              else m.callers - {caller}
            case Awaited(caller) => m.callers - {caller}
            case _ => m.callers
    ensures Next(m, step).failed
         == if step.AttemptFails? && GivesUp(m.client, m.hasApiKey, step.error) then m.failed + {step.run} else m.failed
  {
    hide GivesUp, ShouldReconnect, Classify, Recover, EnsureConnected, LoopHead, Left, GiveUp, Connected;
    StartingLeavesCallers(m);
    if Fails(step) {
      ClassifyLeavesCallers(m, step.error);
      StartingLeavesCallers(Classify(m, step.error));
    }
    if step.Admit? || step.Awaited? {
      StartingLeavesCallers(m.(callers := m.callers - {step.caller}));
    }
  }

  lemma {:induction false} ClassifyLeavesCallers(m: Machine, error: ConnectionError)
    ensures Classify(m, error).callers == m.callers && Classify(m, error).failed == m.failed
  {
    hide Classified;
  }

  lemma {:induction false} StartingLeavesCallers(m: Machine)
    ensures Recover(m).callers == m.callers && Recover(m).failed == m.failed
    ensures EnsureConnected(m).callers == m.callers && EnsureConnected(m).failed == m.failed
  {
  }

  /** The step classifies a failure. */
  ghost predicate Fails(step: Step) {
    step.CallFails? || step.RetryFails? || step.AttemptFails?
  }

  /** The step ends the connection with an error. */
  ghost predicate EndsIt(m: Machine, step: Step) {
    step.BackgroundFails? || (Fails(step) && GivesUp(m.client, m.hasApiKey, step.error))
  }

  /** A failure that ends the connection is recorded by the client, and by the lifecycle when it is the first. */
  lemma {:induction false} ClassifiedEnds(c: Client, hasApiKey: bool, error: ConnectionError)
    ensures var after := Classified(c, hasApiKey, error);
            && after.isDisposed == c.isDisposed
            && (GivesUp(c, hasApiKey, error) ==>
                  && after.connectionFailure.Some?
                  && after.lifecycle == if c.lifecycle.failure.Some? then c.lifecycle
                       else Lifecycle(false, after.connectionFailure))
            && (!GivesUp(c, hasApiKey, error) ==>
                  after.lifecycle == c.lifecycle && after.connectionFailure == c.connectionFailure)
  {
    hide IsCredentialRejection;
  }

  /**
   * The client is disposed once and for all; it is connected by a run that reaches that point, unless a failure is
   * recorded, and no longer once a recovery starts, it is disposed or it ends.
   */
  lemma {:induction false} ConnectedByStep(m: Machine, step: Step)
    requires Enabled(m, step)
    ensures var before, after := m.client, Next(m, step).client;
            && (after.isDisposed <==> before.isDisposed || step.Dispose?)
            && (step.MarkConnected? ==>
                  (after.lifecycle.isConnected <==> before.lifecycle.isConnected || before.lifecycle.failure.None?))
            && (StartsRecovering(m, step) || step.Dispose? ==> !after.lifecycle.isConnected)
            && (EndsIt(m, step) && before.lifecycle.failure.None? ==> !after.lifecycle.isConnected)
            && (!step.MarkConnected? && !StartsRecovering(m, step) && !step.Dispose? && !EndsIt(m, step) ==>
                  after.lifecycle.isConnected == before.lifecycle.isConnected)
  {
    hide Classified, GivesUp, ShouldReconnect, Observed;
    if Fails(step) {
      ClassifiedEnds(m.client, m.hasApiKey, step.error);
      ClassifyLeavesTheRest(m, step.error);
    }
  }

  /**
   * The client takes the last failure that ends the connection, and the lifecycle the first; nothing else touches
   * either. The count is reset by a probe and otherwise moved by failures alone.
   */
  lemma {:induction false} FailuresByStep(m: Machine, step: Step)
    requires Enabled(m, step)
    ensures var before, after := m.client, Next(m, step).client;
            && (before.lifecycle.failure.Some? || !EndsIt(m, step) ==>
                  after.lifecycle.failure == before.lifecycle.failure)
            && (EndsIt(m, step) ==>
                  && after.connectionFailure.Some?
                  && (before.lifecycle.failure.None? ==> after.lifecycle.failure == after.connectionFailure)
                  && (step.BackgroundFails? ==> after.connectionFailure == Some(step.error)))
            && (!EndsIt(m, step) ==> after.connectionFailure == before.connectionFailure)
            && (!Fails(step) ==> after.rejections == if step.ProbeSucceeds? then 0 else before.rejections)
            && (Fails(step) ==>
                  after.rejections == Classified(before, m.hasApiKey, step.error).rejections
                  && after.connectionFailure == Classified(before, m.hasApiKey, step.error).connectionFailure)
  {
    hide Classified, GivesUp, ShouldReconnect, Observed;
    if Fails(step) {
      ClassifiedEnds(m.client, m.hasApiKey, step.error);
    }
  }

  /** What is remembered: each probe and each failure by its kind, and which failure handlers are registered. */
  lemma {:induction false} RecordsByStep(m: Machine, step: Step)
    requires Enabled(m, step)
    ensures Next(m, step).log
         == m.log + if step.ProbeSucceeds? then [Probe]
                    else if !Fails(step) then []
                    else if step.error == IncompatibleServer || step.error.RejectedCredentials? then [Terminal]
                    else if IsCredentialRejection(m.hasApiKey, step.error) then [Rejection]
                    else [OtherFailure]
    ensures Next(m, step).onFailed
         == match step
            case OnFailed(handler) => m.onFailed + {handler}
            case RemoveOnFailed(handler) => m.onFailed - {handler}
            case _ => m.onFailed
    ensures Next(m, step).hasApiKey == m.hasApiKey
  {
    hide GivesUp, ShouldReconnect, Classify, IsCredentialRejection, Recover, EnsureConnected, LoopHead, Abandon, Left,
      Connected;
    StartingLeavesRecords(m);
    if Fails(step) {
      ClassifyRecords(m, step.error);
      StartingLeavesRecords(Classify(m, step.error));
    }
    if step.Admit? || step.Awaited? {
      StartingLeavesRecords(m.(callers := m.callers - {step.caller}));
    }
    if step.BackgroundFails? {
      AbandonLeavesRecords(m, step.error);
    }
  }

  lemma {:induction false} ClassifyRecords(m: Machine, error: ConnectionError)
    ensures var after := Classify(m, error);
            && after.log == m.log + [if error == IncompatibleServer || error.RejectedCredentials? then Terminal
                                     else if IsCredentialRejection(m.hasApiKey, error) then Rejection
                                     else OtherFailure]
            && after.onFailed == m.onFailed && after.hasApiKey == m.hasApiKey
  {
    hide Classified, IsCredentialRejection;
  }

  lemma {:induction false} AbandonLeavesRecords(m: Machine, error: ConnectionError)
    ensures var after := Abandon(m, error);
            after.log == m.log && after.onFailed == m.onFailed && after.hasApiKey == m.hasApiKey
  {
  }

  lemma {:induction false} StartingLeavesRecords(m: Machine)
    ensures Recover(m).log == m.log && Recover(m).onFailed == m.onFailed && Recover(m).hasApiKey == m.hasApiKey
    ensures var after := EnsureConnected(m);
            after.log == m.log && after.onFailed == m.onFailed && after.hasApiKey == m.hasApiKey
  {
  }

  /** Which steps can happen: those of a run in its phases, those of a caller where it stands, and any other always. */
  lemma {:induction false} StepsInTheirPlace(m: Machine, step: Step)
    ensures Enabled(m, step) <==>
            match step
            case Resume(run) => run in m.runs && (m.runs[run].phase == Leaving || m.runs[run].phase == BackingOff)
            case ProbeSucceeds(run) => run in m.runs && m.runs[run].phase == Attempting
            case AttemptFails(run, _) =>
              run in m.runs && (m.runs[run].phase == Attempting || m.runs[run].phase == Probed)
            case MarkConnected(run) => run in m.runs && m.runs[run].phase == Probed
            case Return(run) => run in m.runs && m.runs[run].phase == Notifying
            case Clear(run) => run in m.runs && m.runs[run].phase == Ended
            case Admit(caller, _) => caller in m.callers && m.callers[caller] == Checked
            case Awaited(caller) => exists run :: caller in m.callers && m.callers[caller] == AwaitsRecovery(run)
                                                  && run !in m.runs
            case _ => true
  {
    if step.Awaited? && step.caller in m.callers && m.callers[step.caller].AwaitsRecovery? {
      assert m.callers[step.caller] == AwaitsRecovery(m.callers[step.caller].run);
    }
  }

  /** The beginning: nothing connected, under way, counted or registered. */
  lemma {:induction false} StartsEmpty(hasApiKey: bool)
    ensures var m := Initial(hasApiKey);
            && !m.client.lifecycle.isConnected && !m.client.isDisposed
            && m.client.lifecycle.failure == None && m.client.connectionFailure == None && m.client.rejections == 0
            && m.client.connectOperation == None && m.client.reconnectOperation == None
            && m.hasApiKey == hasApiKey && m.runs == map[] && m.callers == map[] && m.failed == {}
            && m.log == [] && m.onFailed == {} && m.failedCalls == multiset{}
  {
  }

  /** Competing means that a connect run and a recovery are under way. */
  lemma {:induction false} CompetingIsBoth(m: Machine)
    requires Inv(m)
    ensures Competing(m) <==>
            exists i, j :: && i in m.runs && m.runs[i].kind == Connecting && j in m.runs && m.runs[j].kind == Recovering
  {
    hide TrailingRejections;
    if Competing(m) {
      assert m.runs[m.client.connectOperation.value].kind == Connecting;
      assert m.runs[m.client.reconnectOperation.value].kind == Recovering;
    }
  }
}
