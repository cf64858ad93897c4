/** The supervisor and the resume command together: which of the slices that
    stopped a worker a resume can recover, and why the supervisor did not. */
module ResumeTheorems {
  import opened Common
  import opened SliceVerdict
  import opened SliceTheorems
  import opened SliceReports
  import opened BatchSupervisor
  import opened Ledger
  import opened Resume
  import opened Collector
  import opened CollectorTheorems

  /** The data baseline, candidates aside. */
  predicate DataSound(e: Evidence) {
    && TransportClean(e.integrity)
    && e.r2Failed == 0 && e.retentionOk && e.validatorRc == 0 && !e.validatorBlocked
    && AsofAcceptable(e)
  }

  /** A stopped slice the broken-pipe recovery accepts. */
  predicate PipeRecoverable(e: Evidence, c: Context) {
    && DataSound(e) && (e.counted == Yes || ClearedAsNoSignal(e))
    && c.localRc == 0 && !ZeroCode(c) && NumberOne(LastRead(c)) && HostsInactive(c.safety)
  }

  /** A stopped slice the no-signal recovery accepts: nothing but attempted launches
      kept the supervisor from passing it as one without a signal. */
  predicate AttemptsRecoverable(e: Evidence, c: Context) {
    && DataSound(e) && NoCandidate(e) && e.counted != Yes && !BothZero(e.attempted)
    && BothZero(e.richTracked) && BothZero(e.replayEligible) && e.replayAllowed != Yes
    && e.providerClass == "" && e.providerDataLoss != Yes && BothZero(e.reconnectExhausted)
    && BothZero(e.unverifiedChunks) && BothZero(e.uploadTimeouts) && e.streamBackpressure != Yes
    && c.localRc == 0 && (ZeroCode(c) || NoNumber(LastRead(c)) || OnlyZeros(LastRead(c))) && HostsInactive(c.safety)
  }

  // ----- the blockers of a slice, all together -----

  /** No blocker that decides the classification before the countability does. */
  predicate NoneGraver(blockers: seq<Blocker>) {
    && SequenceGap !in blockers && HashMismatch !in blockers && Backpressure !in blockers && Unavailable !in blockers
    && R2Failed !in blockers && RetentionNotOk !in blockers && ArtifactConsistency !in blockers
    && AsofValidation !in blockers && ForbiddenArtifacts !in blockers
  }

  lemma {:induction false} ClassExactly(blockers: seq<Blocker>, r: SliceResult)
    requires blockers != []
    ensures ClassifyBlockers(blockers, r) == Block(OrchestrationBlock) <==>
              && NoneGraver(blockers) && NotCounted !in blockers
              && (LocalRc in blockers || RemoteRc in blockers || LocalFinalizationTimeout in blockers)
    ensures ClassifyBlockers(blockers, r) == Block(CountabilityBlock) <==>
              NoneGraver(blockers) && NotCounted in blockers && r.providerClass == ""
  {
  }

  /** When exactly a blocker list has none of these, given clean transport counters. */
  lemma {:induction false} NoneGraverExactly(e: Evidence, c: Context, blockers: seq<Blocker>)
    requires TransportClean(e.integrity)
    requires forall b :: b in blockers <==> Blocks(e, c, b)
    ensures NoneGraver(blockers) <==> (ClearedAsNoSignal(e) || DataSound(e)) && c.safety.forbiddenRecent == 0
    ensures NotCounted in blockers <==> e.counted != Yes && !ClearedAsNoSignal(e)
    ensures RemoteRc in blockers <==> !ZeroCode(c)
  {
  }

  /** Acceptance by the two recoveries, for any result and blocker list that tell
      the truth about the evidence. */
  lemma {:induction false} PipeRowExactly(e: Evidence, c: Context, r: SliceResult, blockers: seq<Blocker>)
    requires Reports(r, e, c) && blockers != [] && forall b :: b in blockers <==> Blocks(e, c, b)
    ensures BrokenPipeRow(r.(classification := ClassifyBlockers(blockers, r))) <==> PipeRecoverable(e, c)
  {
    ClassExactly(blockers, r);
    if TransportClean(e.integrity) {
      NoneGraverExactly(e, c, blockers);
    }
  }

  lemma {:induction false} AttemptsRowExactly(e: Evidence, c: Context, r: SliceResult, blockers: seq<Blocker>)
    requires Reports(r, e, c) && blockers != [] && forall b :: b in blockers <==> Blocks(e, c, b)
    ensures NoSignalRow(r.(classification := ClassifyBlockers(blockers, r))) <==> AttemptsRecoverable(e, c)
  {
    ClassExactly(blockers, r);
    if TransportClean(e.integrity) {
      NoneGraverExactly(e, c, blockers);
    }
  }

  /** Which stopped slices the recoveries accept, exactly. The quarantine accepts
      none of them. */
  lemma {:induction false} StoppedRowsExactly(e: Evidence, c: Context)
    requires Decide(e, c).Stopped?
    ensures !IsSafeQuarantineSlice(Decide(e, c).result)
    ensures BrokenPipeRow(Decide(e, c).result) <==> PipeRecoverable(e, c)
    ensures NoSignalRow(Decide(e, c).result) <==> AttemptsRecoverable(e, c)
  {
    StoppedResult(e, c);
    MergedReports(e, c);
    var r, blockers := Merged(e, c), AllBlockers(e, c);
    forall b ensures b in blockers <==> Blocks(e, c, b) { AllMembers(e, c, b); }
    PipeRowExactly(e, c, r, blockers);
    AttemptsRowExactly(e, c, r, blockers);
  }

  // ----- main results -----

  /** `u` is about the files the slice was judged on: what its flags say of the
      data the supervisor also read. */
  predicate Describes(u: Unmirrored, e: Evidence, c: Context) {
    && (u.brokenPipe ==>
          && e.counted == Yes && c.brokenPipe && e.providerDataLoss != Yes
          && e.candidates.primary == 0 && e.replayEligible.primary == 0)
    && (u.noSignal ==> e.attempted.primary == 0)
  }

  /** What can keep the supervisor from recovering a broken pipe itself. */
  predicate KeptFromPassing(e: Evidence, c: Context) {
    || !BothZero(e.candidates) || !BothZero(e.replayEligible) || e.replayAllowed == Yes || e.providerClass != ""
    || (c.expectedLatest != "" && c.safety.latestRunId != c.expectedLatest) || TimedOut(c)
  }

  lemma {:induction false} OneIsANumber(text: string)
    requires NumberOne(text)
    ensures !NoNumber(text)
  {
  }

  /** With a code of one, a counted slice passes by the broken-pipe route or not at all. */
  lemma {:induction false} OnlyPipeRoute(e: Evidence, c: Context)
    requires e.counted == Yes && !ZeroCode(c) && NumberOne(LastRead(c))
    ensures Decide(e, c).Stopped? <==> !(Baseline(e, c) && RouteBrokenPipe(e, c))
  {
    OneIsANumber(LastRead(c));
    PassesExactlyWhen(e, c);
  }

  lemma {:induction false} KeptFromRouteExactly(e: Evidence, c: Context)
    requires PipeRecoverable(e, c) && e.counted == Yes && c.brokenPipe && e.providerDataLoss != Yes
    ensures Baseline(e, c) && RouteBrokenPipe(e, c) <==> !KeptFromPassing(e, c)
  {
  }

  lemma {:induction false} KeptFromPassingExactly(e: Evidence, c: Context)
    requires PipeRecoverable(e, c) && e.counted == Yes && c.brokenPipe && e.providerDataLoss != Yes
    ensures Decide(e, c).Stopped? <==> KeptFromPassing(e, c)
  {
    OnlyPipeRoute(e, c);
    KeptFromRouteExactly(e, c);
  }

  lemma {:induction false} AttemptsKeepFromPassing(e: Evidence, c: Context)
    requires AttemptsRecoverable(e, c)
    ensures Decide(e, c).Stopped?
  {
    PassesExactlyWhen(e, c);
  }

  /** A passed slice that was not mirrored was quarantined, and no recovery takes it. */
  lemma {:induction false} QuarantinedIsNotRecovered(t: Tick, slice: SliceRun, u: Unmirrored)
    requires t.outcome == OutcomeOf(slice) && t.storage.None? && !Mirrors(t) && Passes(slice)
    ensures RouteFor(u, ResultOf(slice)) == NoRoute
  {
    PassedSliceIsClean(slice.e, slice.c);
  }

  lemma {:induction false} LoggedResult(t: Tick, slice: SliceRun, n: nat, run: string)
    requires t.outcome == OutcomeOf(slice) && IsLogOf(LogOf(t, n), run)
    ensures slice.Finished? && Last(LogRows(LogOf(t, n))) == Decide(slice.e, slice.c).result
  {
    if slice.Finished? {
      OneResult(LogOf(t, n), Decide(slice.e, slice.c).result);
    }
  }

  lemma {:induction false} OneResult(l: Log, r: SliceResult)
    requires l.summary == [r] || (l.summary == [] && l.stopped == Some(r))
    ensures LogRows(l) == [r] && Last(LogRows(l)) == r
  {
  }

  /** The recoveries of the log a worker of supervised slices left without adding a
      row. The quarantine takes none of them. The broken-pipe recovery takes the
      clean ones the supervisor only stopped for a poll that timed out, a changed
      latest run, an allowed replay, a provider class or a candidate of the second
      file; the no-signal one takes those whose two files disagree on whether a
      launch was attempted. Only a candidate makes the row ask for a stop. */
  lemma {:induction false} SupervisedRecoveryExactly(t: Tick, slice: SliceRun, n: nat, u: Unmirrored, sliceIndex: nat)
    requires t.outcome == OutcomeOf(slice) && t.storage.None? && !Mirrors(t) && IsLogOf(LogOf(t, n), u.run)
    requires slice.Finished? ==> Describes(u, slice.e, slice.c)
    ensures slice.Finished?
    ensures var e, c := slice.e, slice.c;
            var route := RouteFor(u, Last(LogRows(LogOf(t, n))));
            && route != Quarantine
            && (route == BrokenPipe <==> u.brokenPipe && PipeRecoverable(e, c) && KeptFromPassing(e, c))
            && (route == NoSignal <==> u.noSignal && AttemptsRecoverable(e, c))
            && (route == NoSignal ==> e.attempted.primary == 0 < e.attempted.fallback)
            && (route != NoRoute ==>
                  (Quiet(RecoveredRow(LogOf(t, n), route, sliceIndex)) <==>
                     route == NoSignal || (BothZero(e.candidates) && BothZero(e.replayEligible))))
  {
    LoggedResult(t, slice, n, u.run);
    var e, c := slice.e, slice.c;
    var result := Decide(e, c).result;
    if u.brokenPipe && PipeRecoverable(e, c) {
      KeptFromPassingExactly(e, c);
    }
    if AttemptsRecoverable(e, c) {
      AttemptsKeepFromPassing(e, c);
    }
    if Passes(slice) {
      QuarantinedIsNotRecovered(t, slice, u);
    } else {
      StoppedRowsExactly(e, c);
      StoppedResult(e, c);
      MergedReports(e, c);
      if RouteFor(u, result) != NoRoute {
        RecoveredRowIsQuietExactly(u, LogOf(t, n), sliceIndex);
      }
    }
  }
}
