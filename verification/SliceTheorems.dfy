/** Which slices pass, exactly, and what is true of every slice that does. */
module SliceTheorems {
  import opened Common
  import opened SliceVerdict

  // ----- the passing condition, stated on the evidence -----

  predicate BothZero(r: Reported) {
    r.primary == 0 && r.fallback == 0
  }

  predicate TransportClean(c: Counters<Reported>) {
    && BothZero(c.sequenceGap) && BothZero(c.hashMismatch) && BothZero(c.malformed)
    && BothZero(c.backpressure) && BothZero(c.unavailable)
  }

  /** The as-of tables are only complained about for being empty. */
  predicate OnlyEmptyTables(blockers: set<AsofBlocker>) {
    forall b :: b in blockers ==> b.NoRows? || b.GroupMissing? || b.GroupUnavailable?
  }

  predicate AsofAcceptable(e: Evidence) {
    e.asofBlockers == {} ||
    (BothZero(e.attempted) && BothZero(e.richTracked) && OnlyEmptyTables(e.asofBlockers))
  }

  predicate NoCandidate(e: Evidence) {
    BothZero(e.candidates) && (BothZero(e.replayEligible) || e.replayAllowed != Yes)
  }

  predicate DataBaseline(e: Evidence) {
    && TransportClean(e.integrity)
    && e.r2Failed == 0 && e.retentionOk && e.validatorRc == 0 && !e.validatorBlocked
    && AsofAcceptable(e) && NoCandidate(e)
  }

  /** What every route to acceptance demands of the data and of the hosts. */
  predicate Baseline(e: Evidence, c: Context) {
    && DataBaseline(e)
    && c.localRc == 0 && c.safety.forbiddenRecent == 0
    && (c.expectedLatest != "" ==> c.safety.latestRunId == c.expectedLatest)
  }

  predicate NoSignal(e: Evidence) {
    && BothZero(e.attempted) && BothZero(e.richTracked) && BothZero(e.replayEligible) && e.replayAllowed != Yes
    && OnlyEmptyTables(e.asofBlockers)
    && e.providerClass == "" && e.providerDataLoss != Yes
    && (BothZero(e.providerBlockers) ||
        (BothZero(e.reconnectExhausted) && BothZero(e.unverifiedChunks) && BothZero(e.uploadTimeouts)
         && e.streamBackpressure != Yes))
  }

  predicate ServicesQuiet(c: Context) {
    c.safety.relayRunning == 0 && c.safety.candidateService != "active" && c.safety.hunterService != "active"
  }

  /** Either read of the remote exit code says zero. */
  predicate ZeroCode(c: Context) {
    c.remoteRc == "0" || c.refreshedRc == Some("0")
  }

  /** The code the routes look at when neither read says zero: the second read
      unless it is missing or empty, else the first. */
  function LastRead(c: Context): string {
    if c.refreshedRc.Some? && c.refreshedRc.value != "" then c.refreshedRc.value else c.remoteRc
  }

  /** The poll timed out, or the second read a non-zero first one called for did. */
  predicate TimedOut(c: Context) {
    c.pollTimedOut || (c.remoteRc != "0" && c.refreshedRc == None)
  }

  /** The text is no number. */
  predicate NoNumber(text: string) {
    text == "" || exists i :: 0 <= i < |text| && !('0' <= text[i] <= '9')
  }

  /** The text is the number one. */
  predicate NumberOne(text: string) {
    text != "" && text[|text| - 1] == '1' && forall i :: 0 <= i < |text| - 1 ==> text[i] == '0'
  }

  predicate RouteCounted(e: Evidence, c: Context) {
    e.counted == Yes && ZeroCode(c)
  }

  predicate RouteNoSignal(e: Evidence, c: Context) {
    NoSignal(e) && ZeroCode(c)
  }

  predicate RouteMissingRc(e: Evidence, c: Context) {
    && e.counted == Yes && e.replayAllowed != Yes
    && !ZeroCode(c) && NoNumber(LastRead(c)) && ServicesQuiet(c)
  }

  predicate RouteBrokenPipe(e: Evidence, c: Context) {
    && e.counted == Yes && e.replayAllowed != Yes && BothZero(e.replayEligible)
    && e.providerDataLoss != Yes && e.providerClass == ""
    && !ZeroCode(c) && NumberOne(LastRead(c)) && !TimedOut(c) && c.brokenPipe && ServicesQuiet(c)
  }

  predicate RouteQuarantine(e: Evidence, c: Context) {
    && e.counted != Yes && e.replayAllowed != Yes
    && (e.providerClass == "provider_lagged_data_loss" || e.providerClass == "provider_reconnect_exhausted")
    && e.providerDataLoss == Yes && e.partialAuditOnly == Yes && !BothZero(e.providerBlockers)
    && (ZeroCode(c) || NoNumber(LastRead(c)) || NumberOne(LastRead(c)))
  }

  // ----- the two reads of the exit code -----

  lemma {:induction false} ParsedZeros(text: string)
    requires forall i :: 0 <= i < |text| ==> '0' <= text[i] <= '9'
    ensures ParseDigits(text) == 0 <==> forall i :: 0 <= i < |text| ==> text[i] == '0'
    decreases |text|
  {
    if text != "" {
      var front := text[..|text| - 1];
      assert forall i :: 0 <= i < |front| ==> front[i] == text[i];
      ParsedZeros(front);
    }
  }

  lemma {:induction false} ParsedOne(text: string)
    requires text != "" && forall i :: 0 <= i < |text| ==> '0' <= text[i] <= '9'
    ensures ParseDigits(text) == 1 <==> NumberOne(text)
  {
    var front := text[..|text| - 1];
    assert forall i :: 0 <= i < |front| ==> front[i] == text[i];
    ParsedZeros(front);
  }

  lemma {:induction false} ParsedExactly(text: string)
    ensures ParsedRc(text) == None <==> NoNumber(text)
    ensures ParsedRc(text) == Some(1) <==> NumberOne(text)
    ensures ParsedRc(text) == Some(0) <==> text != "" && forall i :: 0 <= i < |text| ==> text[i] == '0'
  {
    if IsDigits(text) {
      ParsedZeros(text);
      ParsedOne(text);
    }
  }

  /** What the tail of the slice makes of the two reads. */
  lemma {:induction false} ReadsExactly(c: Context)
    ensures FinalRc(c) == "0" <==> ZeroCode(c)
    ensures !ZeroCode(c) ==> FinalRc(c) == LastRead(c)
    ensures PollTimedOut(c) <==> TimedOut(c)
    ensures ParsedRc(FinalRc(c)) == None <==> !ZeroCode(c) && NoNumber(LastRead(c))
    ensures ParsedRc(FinalRc(c)) == Some(1) <==> !ZeroCode(c) && NumberOne(LastRead(c))
  {
    ParsedExactly(FinalRc(c));
    assert "0"[0] == '0';
  }

  // ----- the blocker lists -----

  /** Why each blocker of the data is raised. */
  predicate Raised(e: Evidence, b: Blocker) {
    match b
    case SequenceGap => !BothZero(e.integrity.sequenceGap)
    case HashMismatch => !BothZero(e.integrity.hashMismatch)
    case MalformedFrame => !BothZero(e.integrity.malformed)
    case Backpressure => !BothZero(e.integrity.backpressure)
    case Unavailable => !BothZero(e.integrity.unavailable)
    case R2Failed => e.r2Failed != 0
    case RetentionNotOk => !e.retentionOk
    case ArtifactConsistency => e.validatorRc != 0 || e.validatorBlocked
    case AsofValidation => !AsofAcceptable(e)
    case NotCounted => e.counted != Yes
    case CandidateReview => !NoCandidate(e)
    case _ => false
  }

  /** Why each blocker of the hosts is raised. */
  predicate RaisedByHost(c: Context, b: Blocker) {
    match b
    case LocalRc => c.localRc != 0
    case LocalFinalizationTimeout => c.localRc == -1
    case RemoteRc => !ZeroCode(c)
    case ForbiddenArtifacts => c.safety.forbiddenRecent != 0
    case LatestRunIdChanged => c.expectedLatest != "" && c.safety.latestRunId != c.expectedLatest
    case _ => false
  }

  lemma {:induction false} IntegrityStep(c: Counters<nat>, n: nat, b: Blocker)
    requires 0 < n <= |INTEGRITY|
    ensures b in IntegrityBlockers(c, n) <==>
              b in IntegrityBlockers(c, n - 1) || (b == INTEGRITY[n - 1] && CountsOf(c)[n - 1] != 0)
  {
  }

  lemma {:induction false} IntegrityMembers(c: Counters<nat>, b: Blocker)
    ensures b in IntegrityBlockers(c) <==>
              || (b == SequenceGap && c.sequenceGap != 0) || (b == HashMismatch && c.hashMismatch != 0)
              || (b == MalformedFrame && c.malformed != 0) || (b == Backpressure && c.backpressure != 0)
              || (b == Unavailable && c.unavailable != 0)
  {
    IntegrityStep(c, 1, b);
    IntegrityStep(c, 2, b);
    IntegrityStep(c, 3, b);
    IntegrityStep(c, 4, b);
    IntegrityStep(c, 5, b);
  }

  lemma {:induction false} WhenMember(front: seq<Blocker>, condition: bool, x: Blocker, b: Blocker)
    ensures b in front + When(condition, x) <==> b in front || (condition && b == x)
  {
  }

  /** The tests that put `b` in the blocker list of a result `r`. */
  predicate Tested(e: Evidence, r: SliceResult, b: Blocker) {
    match b
    case SequenceGap => r.integrity.sequenceGap != 0
    case HashMismatch => r.integrity.hashMismatch != 0
    case MalformedFrame => r.integrity.malformed != 0
    case Backpressure => r.integrity.backpressure != 0
    case Unavailable => r.integrity.unavailable != 0
    case R2Failed => e.r2Failed != 0
    case RetentionNotOk => !e.retentionOk
    case ArtifactConsistency => e.validatorRc != 0 || e.validatorBlocked
    case AsofValidation => !AsofExpectedEmpty(r, e.asofBlockers) && e.asofBlockers != {}
    case NotCounted => e.counted != Yes
    case CandidateReview => CandidatePresent(r)
    case _ => false
  }

  lemma {:induction false} OtherMembers(e: Evidence, r: SliceResult, b: Blocker)
    ensures b in OtherBlockers(e, r) <==>
              || (b == R2Failed && e.r2Failed != 0) || (b == RetentionNotOk && !e.retentionOk)
              || (b == ArtifactConsistency && (e.validatorRc != 0 || e.validatorBlocked))
              || (b == AsofValidation && !AsofExpectedEmpty(r, e.asofBlockers) && e.asofBlockers != {})
              || (b == NotCounted && e.counted != Yes) || (b == CandidateReview && CandidatePresent(r))
  {
  }

  lemma {:induction false} TestedMembers(e: Evidence, r: SliceResult, b: Blocker)
    ensures b in DataBlockers(e, r) <==> Tested(e, r, b)
  {
    IntegrityMembers(r.integrity, b);
    OtherMembers(e, r, b);
    assert b in DataBlockers(e, r) <==> b in IntegrityBlockers(r.integrity) || b in OtherBlockers(e, r);
  }

  lemma {:induction false} DataMembers(e: Evidence, run: string, b: Blocker)
    ensures b in DataBlockers(e, InitialResult(e, run)) <==> Raised(e, b)
  {
    TestedMembers(e, InitialResult(e, run), b);
    assert Tested(e, InitialResult(e, run), b) <==> Raised(e, b);
  }

  lemma {:induction false} HostMembers(c: Context, b: Blocker)
    ensures b in HostBlockers(c) <==> RaisedByHost(c, b)
  {
    ReadsExactly(c);
    var h1 := When(c.localRc != 0, LocalRc);
    var h2 := h1 + When(c.localRc == -1, LocalFinalizationTimeout);
    var h3 := h2 + When(FinalRc(c) != "0", RemoteRc);
    var h4 := h3 + When(c.safety.forbiddenRecent != 0, ForbiddenArtifacts);
    WhenMember(h1, c.localRc == -1, LocalFinalizationTimeout, b);
    WhenMember(h2, FinalRc(c) != "0", RemoteRc, b);
    WhenMember(h3, c.safety.forbiddenRecent != 0, ForbiddenArtifacts, b);
    WhenMember(h4, c.expectedLatest != "" && c.safety.latestRunId != c.expectedLatest, LatestRunIdChanged, b);
  }

  function SomeRaised(e: Evidence): (b: Blocker)
    requires !DataBaseline(e)
    ensures Raised(e, b) && b != NotCounted
  {
    if !BothZero(e.integrity.sequenceGap) then SequenceGap
    else if !BothZero(e.integrity.hashMismatch) then HashMismatch
    else if !BothZero(e.integrity.malformed) then MalformedFrame
    else if !BothZero(e.integrity.backpressure) then Backpressure
    else if !BothZero(e.integrity.unavailable) then Unavailable
    else if e.r2Failed != 0 then R2Failed
    else if !e.retentionOk then RetentionNotOk
    else if e.validatorRc != 0 || e.validatorBlocked then ArtifactConsistency
    else if !AsofAcceptable(e) then AsofValidation
    else CandidateReview
  }

  lemma {:induction false} RaisedTolerated(e: Evidence, b: seq<Blocker>)
    requires forall x :: x in b <==> Raised(e, x)
    ensures OnlyTolerated(b, {NotCounted}) <==> DataBaseline(e)
    ensures (OnlyTolerated(b, {AsofValidation, NotCounted}) && AsofAcceptable(e)) <==> DataBaseline(e)
    ensures b == [] <==> DataBaseline(e) && e.counted == Yes
  {
    if DataBaseline(e) {
      assert Raised(e, NotCounted) <==> e.counted != Yes;
      if b != [] {
        assert b[0] in b;
      }
    } else {
      var x := SomeRaised(e);
      assert x in b;
    }
  }

  lemma {:induction false} DataTolerated(e: Evidence, run: string)
    ensures var b := DataBlockers(e, InitialResult(e, run));
            && (OnlyTolerated(b, {NotCounted}) <==> DataBaseline(e))
            && ((OnlyTolerated(b, {AsofValidation, NotCounted}) && AsofAcceptable(e)) <==> DataBaseline(e))
            && (b == [] <==> DataBaseline(e) && e.counted == Yes)
  {
    var b := DataBlockers(e, InitialResult(e, run));
    forall x ensures x in b <==> Raised(e, x) { DataMembers(e, run, x); }
    RaisedTolerated(e, b);
  }

  lemma {:induction false} NoSignalExactly(e: Evidence, run: string)
    ensures var r := InitialResult(e, run);
            IsCleanNoSignal(r, DataBlockers(e, r), e.asofBlockers) <==> (DataBaseline(e) && NoSignal(e))
  {
    DataTolerated(e, run);
  }

  lemma {:induction false} ValidatedExactly(e: Evidence, run: string)
    ensures Validated(e, run).1 == [] <==> DataBaseline(e) && (e.counted == Yes || NoSignal(e))
    ensures Validated(e, run).0.noSignal <==> DataBaseline(e) && NoSignal(e)
    ensures forall b :: b in Validated(e, run).1 ==> Raised(e, b)
    ensures !NoSignal(e) ==> forall b :: Raised(e, b) ==> b in Validated(e, run).1
  {
    NoSignalExactly(e, run);
    DataTolerated(e, run);
    forall b ensures b in DataBlockers(e, InitialResult(e, run)) <==> Raised(e, b) { DataMembers(e, run, b); }
  }

  lemma {:induction false} HostExactly(c: Context)
    ensures HostBlockers(c) == [] <==> forall b :: !RaisedByHost(c, b)
    ensures HostBlockers(c) == [RemoteRc] <==> !ZeroCode(c) && forall b :: b != RemoteRc ==> !RaisedByHost(c, b)
  {
    var h := HostBlockers(c);
    forall b ensures b in h <==> RaisedByHost(c, b) { HostMembers(c, b); }
    if h != [] { assert h[0] in h; }
    if h == [RemoteRc] {
      assert RemoteRc in h;
    }
    if !ZeroCode(c) && forall b :: b != RemoteRc ==> !RaisedByHost(c, b) {
      assert !RaisedByHost(c, LocalRc) && !RaisedByHost(c, ForbiddenArtifacts) && !RaisedByHost(c, LatestRunIdChanged);
    }
  }

  lemma {:induction false} HostBaselineExactly(c: Context)
    ensures (forall b :: b != RemoteRc ==> !RaisedByHost(c, b)) <==>
              && c.localRc == 0 && c.safety.forbiddenRecent == 0
              && (c.expectedLatest != "" ==> c.safety.latestRunId == c.expectedLatest)
  {
    assert RaisedByHost(c, LocalRc) <==> c.localRc != 0;
    assert RaisedByHost(c, ForbiddenArtifacts) <==> c.safety.forbiddenRecent != 0;
    assert RaisedByHost(c, LatestRunIdChanged) <==> c.expectedLatest != "" && c.safety.latestRunId != c.expectedLatest;
  }

  lemma {:induction false} AllBlockersExactly(e: Evidence, c: Context)
    ensures AllBlockers(e, c) == [] <==> Baseline(e, c) && (e.counted == Yes || NoSignal(e)) && ZeroCode(c)
    ensures AllBlockers(e, c) == [RemoteRc] <==>
              Baseline(e, c) && (e.counted == Yes || NoSignal(e)) && !ZeroCode(c)
  {
    ValidatedExactly(e, c.run);
    HostExactly(c);
    HostBaselineExactly(c);
    var v := Validated(e, c.run).1;
    if v != [] {
      assert v[0] in v;
      assert Raised(e, v[0]);
      assert AllBlockers(e, c)[0] == v[0];
    } else {
      assert AllBlockers(e, c) == HostBlockers(c);
    }
    assert RaisedByHost(c, RemoteRc) <==> !ZeroCode(c);
  }

  lemma {:induction false} ValidatedTolerated(e: Evidence, run: string)
    ensures var v := Validated(e, run).1;
            && (OnlyTolerated(v, {NotCounted}) <==> DataBaseline(e))
            && (NotCounted in v && DataBaseline(e) <==> DataBaseline(e) && e.counted != Yes && !NoSignal(e))
            && RemoteRc !in v
  {
    NoSignalExactly(e, run);
    DataTolerated(e, run);
    DataMembers(e, run, NotCounted);
    DataMembers(e, run, RemoteRc);
  }

  lemma {:induction false} QuarantineExactly(e: Evidence, c: Context)
    ensures (OnlyTolerated(AllBlockers(e, c), {NotCounted, RemoteRc}) && NotCounted in AllBlockers(e, c))
              <==> (Baseline(e, c) && e.counted != Yes && !NoSignal(e))
    ensures RemoteRc in AllBlockers(e, c) <==> !ZeroCode(c)
  {
    ValidatedTolerated(e, c.run);
    HostBaselineExactly(c);
    var v, h := Validated(e, c.run).1, HostBlockers(c);
    forall b ensures b in h <==> RaisedByHost(c, b) { HostMembers(c, b); }
    HostTolerated(c, v, h);
  }

  lemma {:induction false} HostTolerated(c: Context, v: seq<Blocker>, h: seq<Blocker>)
    requires forall b :: b in h <==> RaisedByHost(c, b)
    requires RemoteRc !in v
    ensures OnlyTolerated(v + h, {NotCounted, RemoteRc}) <==>
              OnlyTolerated(v, {NotCounted}) && forall b :: b != RemoteRc ==> !RaisedByHost(c, b)
    ensures NotCounted in v + h <==> NotCounted in v
    ensures RemoteRc in v + h <==> !ZeroCode(c)
  {
    assert !RaisedByHost(c, NotCounted);
    assert RaisedByHost(c, RemoteRc) <==> !ZeroCode(c);
    if OnlyTolerated(v + h, {NotCounted, RemoteRc}) {
      forall b | b in v ensures b == NotCounted { assert b in v + h; }
      forall b | b != RemoteRc ensures !RaisedByHost(c, b) {
        assert b in h ==> b in v + h;
      }
    }
  }

  /** A recovery applies exactly on its route. */
  lemma {:induction false} RecoveriesExactly(e: Evidence, c: Context)
    ensures CanRecoverMissingRc(Merged(e, c), AllBlockers(e, c), c.safety, c.expectedLatest) <==>
              Baseline(e, c) && RouteMissingRc(e, c)
    ensures CanRecoverBrokenPipe(Merged(e, c), AllBlockers(e, c), c.safety, c.expectedLatest, c.brokenPipe) <==>
              Baseline(e, c) && RouteBrokenPipe(e, c)
  {
    ReadsExactly(c);
    AllBlockersExactly(e, c);
  }

  /** The quarantine applies exactly on its route. */
  lemma {:induction false} QuarantineRouteExactly(e: Evidence, c: Context)
    ensures IsSafeProviderQuarantine(Merged(e, c), AllBlockers(e, c)) <==> Baseline(e, c) && RouteQuarantine(e, c)
  {
    ReadsExactly(c);
    QuarantineExactly(e, c);
  }

  // ----- main results -----

  /** A slice passes exactly when the data and the hosts are clean and one of the
      five routes applies. */
  lemma {:induction false} PassesExactlyWhen(e: Evidence, c: Context)
    ensures Decide(e, c).Passed? <==>
              && Baseline(e, c)
              && (RouteCounted(e, c) || RouteNoSignal(e, c) || RouteMissingRc(e, c)
                  || RouteBrokenPipe(e, c) || RouteQuarantine(e, c))
  {
    AllBlockersExactly(e, c);
    RecoveriesExactly(e, c);
    QuarantineRouteExactly(e, c);
  }

  /** What an accepted or quarantined slice is reported as. */
  predicate Consistent(r: SliceResult) {
    && (r.quarantined <==> !Accepted(r))
    && (r.quarantined ==> r.classification == PassQuarantined)
    && (r.noSignal ==> r.classification == PassEmpty || r.classification == PassNoSignal)
    && (!r.quarantined && !r.noSignal ==> r.classification == PassGapContinued || r.classification == PassCounted)
  }

  /** Whichever route passed it: all integrity counters and R2 failures are zero
      in both sources, the artifacts are consistent, no candidate is waiting, the
      hosts are clean, the slice is either accepted or quarantined but not both,
      and its classification is never the candidate-review one. */
  lemma {:induction false} PassedSliceIsClean(e: Evidence, c: Context)
    requires Decide(e, c).Passed?
    ensures var r := Decide(e, c).result;
            && IntegrityZero(r.integrity) && TransportClean(e.integrity)
            && r.r2Failed == 0 && r.artifactOk && e.retentionOk
            && r.candidates == 0 && (r.replayEligible == 0 || r.replayAllowed != Yes)
            && r.localRc == 0 && r.safety == c.safety && r.safety.forbiddenRecent == 0
            && Consistent(r) && r.classification != PassReview && r.run == c.run
  {
    PassesExactlyWhen(e, c);
    AllBlockersExactly(e, c);
    QuarantineExactly(e, c);
    ValidatedExactly(e, c.run);
  }

  /** A slice with a candidate checkpoint, or with a replay candidate that may be
      replayed, always stops the batch. */
  lemma {:induction false} CandidateStopsBatch(e: Evidence, c: Context)
    requires !NoCandidate(e)
    ensures Decide(e, c).Stopped?
  {
    PassesExactlyWhen(e, c);
  }
}
