/** What each label says, stated on the files of the runs
    (scripts/build_strategy_readiness.py: segment_clean, inspect_run,
    collect_segment_map, build_labels). */
module LabelTheorems {
  import opened Labels

  // ----- inclusion -----

  /** The first of the claims that is not silent affirms. */
  predicate FirstAffirms(claims: seq<Claim>) {
    exists i :: 0 <= i < |claims| && claims[i] == Affirms && forall j :: 0 <= j < i ==> claims[j] == Silent
  }

  lemma {:induction false} FirstOfThree(a: Claim, b: Claim, c: Claim)
    ensures Either(a, Either(b, c)) == Affirms <==> FirstAffirms([a, b, c])
  {
    var claims := [a, b, c];
    assert claims[0] == a && claims[1] == b && claims[2] == c;
  }

  lemma {:induction false} FirstOfFour(a: Claim, b: Claim, c: Claim, d: Claim)
    ensures Either(a, Either(b, Either(c, d))) == Affirms <==> FirstAffirms([a, b, c, d])
  {
    var claims := [a, b, c, d];
    assert claims[0] == a && claims[1] == b && claims[2] == c && claims[3] == d;
  }

  /** Somewhere the run counts, its upload and its artifacts are confirmed, and the
      three transport counters are zero. */
  predicate Confirmed(d: RunDocs) {
    && (d.countedByCountability == Affirms || d.countedByProof == Affirms)
    && (d.r2ByBase == Affirms || d.r2ByUpload == Affirms || d.r2ByCountability == Affirms)
    && (d.artifactsByBase || d.hardInvariants == Affirms)
    && d.sequenceGaps == 0 && d.hashMismatches == 0 && d.receiverBackpressure == 0
  }

  /** None of the six switches reads as on. */
  predicate AllOff(d: RunDocs) {
    && !FirstAffirms([d.proof.holderRpc, d.local.holderRpc, d.retention.holderRpc])
    && !FirstAffirms([d.proof.rpcCanonical, d.local.rpcCanonical, d.countability.rpcCanonical, d.retention.rpcCanonical])
    && !FirstAffirms([d.countability.replay, d.proof.replay, d.local.replay, d.retention.replay])
    && !FirstAffirms([d.proof.backtesting, d.local.backtesting, d.countability.backtesting, d.retention.backtesting])
    && !FirstAffirms([d.proof.tuning, d.local.tuning, d.countability.tuning, d.retention.tuning])
    && !FirstAffirms([d.proof.trading, d.local.trading, d.retention.trading])
  }

  lemma {:induction false} FirstChecksExactly(d: RunDocs)
    ensures (forall i :: 0 <= i < 6 ==> Checks(d)[i].0) <==> Confirmed(d)
  {
    var c := Checks(d);
    assert (forall i :: 0 <= i < 6 ==> c[i].0) <==> c[0].0 && c[1].0 && c[2].0 && c[3].0 && c[4].0 && c[5].0;
  }

  lemma {:induction false} SwitchChecksExactly(d: RunDocs)
    ensures (forall i :: 6 <= i < 12 ==> Checks(d)[i].0) <==> AllOff(d)
  {
    FirstOfThree(d.proof.holderRpc, d.local.holderRpc, d.retention.holderRpc);
    FirstOfFour(d.proof.rpcCanonical, d.local.rpcCanonical, d.countability.rpcCanonical, d.retention.rpcCanonical);
    FirstOfFour(d.countability.replay, d.proof.replay, d.local.replay, d.retention.replay);
    FirstOfFour(d.proof.backtesting, d.local.backtesting, d.countability.backtesting, d.retention.backtesting);
    FirstOfFour(d.proof.tuning, d.local.tuning, d.countability.tuning, d.retention.tuning);
    FirstOfThree(d.proof.trading, d.local.trading, d.retention.trading);
    var c := Checks(d);
    assert (forall i :: 6 <= i < 12 ==> c[i].0) <==> c[6].0 && c[7].0 && c[8].0 && c[9].0 && c[10].0 && c[11].0;
  }

  /** Which runs are included. */
  lemma {:induction false} IncludedExactly(d: RunDocs)
    ensures Included(d) <==> Confirmed(d) && AllOff(d)
  {
    FirstChecksExactly(d);
    SwitchChecksExactly(d);
    assert |Checks(d)| == 12;
  }

  // ----- segments -----

  /** Row `s` is the last one about segment `id`. */
  predicate LastRowOf(run: Run, s: nat, id: string) {
    s < |run.segments| && run.segments[s].id == id && forall t :: s < t < |run.segments| ==> run.segments[t].id != id
  }

  predicate CleanRow(d: SegmentDoc) {
    && d.counted == Affirms && d.providerDataLoss != Affirms && d.clientBackpressure != Affirms
    && d.partialAuditOnly != Affirms && !d.blockerClass
  }

  /** A clean segment of an included run; a run without segment rows is one segment
      without a name. */
  ghost predicate CleanIn(run: Run, id: string) {
    && Confirmed(run.docs) && AllOff(run.docs)
    && ((run.segments == [] && id == "") || exists s: nat :: LastRowOf(run, s, id) && CleanRow(run.segments[s]))
  }

  ghost predicate LossyIn(run: Run, id: string) {
    exists s: nat :: LastRowOf(run, s, id) && run.segments[s].providerDataLoss == Affirms
  }

  lemma {:induction false} SegmentNames(docs: seq<SegmentDoc>, included: bool, id: string)
    ensures SegmentsFrom(docs, included) == map[] <==> docs == []
    ensures id in SegmentsFrom(docs, included) <==> exists s :: 0 <= s < |docs| && docs[s].id == id
    decreases |docs|
  {
    if docs != [] {
      var n := |docs| - 1;
      SegmentNames(docs[..n], included, id);
      assert docs[n].id in SegmentsFrom(docs, included);
      assert forall s :: 0 <= s < n ==> docs[..n][s] == docs[s];
      if s :| 0 <= s < n && docs[s].id == id {
        assert docs[..n][s].id == id;
      }
    }
  }

  /** The last row of a name decides. */
  lemma {:induction false} LastRowDecides(docs: seq<SegmentDoc>, included: bool, s: nat)
    requires s < |docs| && forall t :: s < t < |docs| ==> docs[t].id != docs[s].id
    ensures docs[s].id in SegmentsFrom(docs, included)
    ensures SegmentsFrom(docs, included)[docs[s].id] == Segment(included && CleanRow(docs[s]), docs[s].providerDataLoss)
    decreases |docs|
  {
    var n := |docs| - 1;
    if s < n {
      forall t | s < t < n ensures docs[..n][t].id != docs[..n][s].id {
        assert docs[..n][t] == docs[t];
      }
      LastRowDecides(docs[..n], included, s);
    }
  }

  lemma {:induction false} LastRowExists(run: Run, id: string, n: nat)
    requires n <= |run.segments| && (exists s :: 0 <= s < n && run.segments[s].id == id)
    requires forall t :: n <= t < |run.segments| ==> run.segments[t].id != id
    ensures exists s: nat :: LastRowOf(run, s, id)
    decreases n
  {
    if run.segments[n - 1].id == id {
      assert LastRowOf(run, n - 1, id);
    } else {
      LastRowExists(run, id, n - 1);
    }
  }

  /** What the segment map says about a segment. */
  lemma {:induction false} SegmentExactly(run: Run, id: string)
    ensures id in SegmentMap(run) && SegmentMap(run)[id].clean <==> CleanIn(run, id)
    ensures id in SegmentMap(run) && SegmentMap(run)[id].providerDataLoss == Affirms <==> LossyIn(run, id)
  {
    IncludedExactly(run.docs);
    SegmentNames(run.segments, Included(run.docs), id);
    if exists s :: 0 <= s < |run.segments| && run.segments[s].id == id {
      LastRowExists(run, id, |run.segments|);
      var s: nat :| LastRowOf(run, s, id);
      NamedSegmentExactly(run, s, id);
    } else {
      assert forall s: nat :: !LastRowOf(run, s, id);
    }
  }

  lemma {:induction false} NamedSegmentExactly(run: Run, s: nat, id: string)
    requires LastRowOf(run, s, id)
    ensures id in SegmentMap(run) && (SegmentMap(run)[id].clean <==> CleanIn(run, id))
    ensures SegmentMap(run)[id].providerDataLoss == Affirms <==> LossyIn(run, id)
  {
    IncludedExactly(run.docs);
    LastRowDecides(run.segments, Included(run.docs), s);
    SegmentNames(run.segments, Included(run.docs), id);
    assert SegmentMap(run) == SegmentsFrom(run.segments, Included(run.docs));
    assert forall t: nat :: LastRowOf(run, t, id) ==> t == s;
  }

  // ----- one label -----

  /** The first state that is not empty: the attempt's own, that of its rejection, that of its candidacy. */
  predicate OutcomeIs(outcome: string, run: Run, a: Attempt) {
    var key := (a.segmentId, a.mint);
    if a.finalState != "" then outcome == a.finalState
    else if key in run.rejected && run.rejected[key].finalState != "" then outcome == run.rejected[key].finalState
    else if key in run.candidates then outcome == run.candidates[key].finalState
    else outcome == ""
  }

  /** The gaps the label admits to; `lossy` says that its segment lost data. */
  predicate GapsAre(l: Label, run: Run, a: Attempt, lossy: bool) {
    && (l.providerGap <==> a.mint in run.gapMints || lossy)
    && (l.relayGap <==> run.docs.sequenceGaps > 0) && (l.hashGap <==> run.docs.hashMismatches > 0)
    && (l.receiverGap <==> run.docs.receiverBackpressure > 0)
  }

  predicate CandidacyIs(l: Label, run: Run, a: Attempt) {
    var key := (a.segmentId, a.mint);
    && (l.checkpoint <==> key in run.candidates && run.candidates[key].checkpoint == Affirms)
    && (l.replayEligible <==> && key in run.candidates && run.candidates[key].replayEligible == Affirms
                              && run.docs.countability.replay == Affirms && run.replayCandidates > 0)
  }

  /** The verdicts that follow; `clean` says that the segment is clean. */
  predicate VerdictIs(l: Label, clean: bool) {
    && (l.cleanNegative <==> l.finalOutcome == "early_rejected_dead" && clean && !l.providerGap && !l.relayGap)
    && (l.cleanPositive <==> l.replayEligible && !l.checkpoint && clean)
    && (l.censored <==> || l.finalOutcome == "terminal_inconclusive"
                        || l.providerGap || l.relayGap || l.hashGap || l.receiverGap)
    && (l.quality == CleanPositive <==> l.cleanPositive)
    && (l.quality == CleanNegative <==> l.cleanNegative && !l.cleanPositive)
    && (l.quality == Censored <==> l.censored && !l.cleanNegative && !l.cleanPositive)
    && (l.quality == AuditCheckpoint <==> l.checkpoint && !l.censored && !l.cleanNegative && !l.cleanPositive)
  }

  /** What the label of attempt `a` of `run` says. */
  predicate Tells(l: Label, run: Run, a: Attempt, clean: bool, lossy: bool) {
    && l.mint == a.mint && l.sliceId == run.sliceId && l.segmentId == a.segmentId && l.firstSeen == a.launchedAt
    && OutcomeIs(l.finalOutcome, run, a) && GapsAre(l, run, a, lossy) && CandidacyIs(l, run, a) && VerdictIs(l, clean)
  }

  lemma {:induction false} LabelExactly(run: Run, owner: Run, a: Attempt)
    ensures Tells(LabelOf(run, SegmentMap(owner), a), run, a, CleanIn(owner, a.segmentId), LossyIn(owner, a.segmentId))
  {
    SegmentExactly(owner, a.segmentId);
  }

  // ----- whose segments a label speaks of -----

  /** The last run with this slice id; slice ids are directory names, so it is the
      run itself unless directories repeat. */
  predicate LastOf(runs: seq<Run>, w: nat, sliceId: string) {
    w < |runs| && runs[w].sliceId == sliceId && forall v :: w < v < |runs| ==> runs[v].sliceId != sliceId
  }

  lemma {:induction false} SegmentsAreLast(runs: seq<Run>, w: nat, run: Run)
    requires LastOf(runs, w, run.sliceId)
    ensures SegmentsOf(SegmentMaps(runs), run) == SegmentMap(runs[w])
    decreases |runs|
  {
    var n := |runs| - 1;
    if w < n {
      forall v | w < v < n ensures runs[..n][v].sliceId != run.sliceId {
        assert runs[..n][v] == runs[v];
      }
      SegmentsAreLast(runs[..n], w, run);
    }
  }

  lemma {:induction false} LastExists(runs: seq<Run>, i: nat, n: nat) returns (w: nat)
    requires i < n <= |runs| && forall v :: n <= v < |runs| ==> runs[v].sliceId != runs[i].sliceId
    ensures LastOf(runs, w, runs[i].sliceId)
    decreases n
  {
    if runs[n - 1].sliceId == runs[i].sliceId {
      w := n - 1;
    } else {
      w := LastExists(runs, i, n - 1);
    }
  }

  // ----- all labels -----

  /** Position of an attempt: its run and its place in the run. */
  datatype Place = Place(run: nat, attempt: nat)

  predicate Before(p: Place, q: Place) {
    p.run < q.run || (p.run == q.run && p.attempt < q.attempt)
  }

  predicate Exists(runs: seq<Run>, p: Place) {
    p.run < |runs| && p.attempt < |runs[p.run].attempts|
  }

  function At(runs: seq<Run>, p: Place): Attempt
    requires Exists(runs, p)
  {
    runs[p.run].attempts[p.attempt]
  }

  /** The first attempt of its mint, in run and attempt order. */
  ghost predicate IsFirst(runs: seq<Run>, p: Place) {
    && Exists(runs, p) && At(runs, p).mint != ""
    && forall q :: Exists(runs, q) && Before(q, p) ==> At(runs, q).mint != At(runs, p).mint
  }

  /** The label says what there is to say about the attempt. */
  ghost predicate Speaks(l: Label, runs: seq<Run>, p: Place)
    requires Exists(runs, p)
  {
    forall w: nat :: LastOf(runs, w, runs[p.run].sliceId) ==>
      Tells(l, runs[p.run], At(runs, p), CleanIn(runs[w], At(runs, p).segmentId), LossyIn(runs[w], At(runs, p).segmentId))
  }

  /** Each label is that of a first attempt before `end`. */
  ghost predicate Paired(labels: seq<Label>, origins: seq<Place>, runs: seq<Run>, end: Place) {
    && |origins| == |labels|
    && forall k :: 0 <= k < |labels| ==>
         && IsFirst(runs, origins[k]) && Before(origins[k], end)
         && labels[k].mint == At(runs, origins[k]).mint && Speaks(labels[k], runs, origins[k])
  }

  predicate InOrder(origins: seq<Place>) {
    forall k, m :: 0 <= k < m < |origins| ==> Before(origins[k], origins[m])
  }

  predicate HasLabel(labels: seq<Label>, mint: string) {
    exists k :: 0 <= k < |labels| && labels[k].mint == mint
  }

  /** Every mint attempted before `end` has a label. */
  ghost predicate AllLabelled(labels: seq<Label>, runs: seq<Run>, end: Place) {
    forall p :: Exists(runs, p) && Before(p, end) && At(runs, p).mint != "" ==> HasLabel(labels, At(runs, p).mint)
  }

  ghost predicate Tracks(labels: seq<Label>, origins: seq<Place>, runs: seq<Run>, end: Place) {
    Paired(labels, origins, runs, end) && InOrder(origins) && AllLabelled(labels, runs, end)
  }

  function Next(p: Place): Place {
    Place(p.run, p.attempt + 1)
  }

  lemma {:induction false} LabelledMeans(labels: seq<Label>, mint: string)
    ensures mint in LabelledMints(labels) <==> HasLabel(labels, mint)
  {
  }

  lemma {:induction false} BeforeNext(q: Place, p: Place)
    ensures Before(q, Next(p)) <==> Before(q, p) || q == p
  {
  }

  lemma {:induction false} LabelledThrough(labels: seq<Label>, runs: seq<Run>, p: Place)
    requires Exists(runs, p) && AllLabelled(labels, runs, p) && (At(runs, p).mint == "" || HasLabel(labels, At(runs, p).mint))
    ensures AllLabelled(labels, runs, Next(p))
  {
    forall q | Exists(runs, q) && Before(q, Next(p)) && At(runs, q).mint != "" ensures HasLabel(labels, At(runs, q).mint) {
      BeforeNext(q, p);
    }
  }

  lemma {:induction false} TrackSkip(labels: seq<Label>, origins: seq<Place>, runs: seq<Run>, p: Place)
    requires Exists(runs, p) && Tracks(labels, origins, runs, p)
    requires At(runs, p).mint == "" || At(runs, p).mint in LabelledMints(labels)
    ensures Tracks(labels, origins, runs, Next(p))
  {
    LabelledMeans(labels, At(runs, p).mint);
    LabelledThrough(labels, runs, p);
    forall k | 0 <= k < |origins| ensures Before(origins[k], Next(p)) {
      BeforeNext(origins[k], p);
    }
  }

  lemma {:induction false} NewMintIsFirst(labels: seq<Label>, runs: seq<Run>, p: Place)
    requires Exists(runs, p) && AllLabelled(labels, runs, p)
    requires At(runs, p).mint != "" && At(runs, p).mint !in LabelledMints(labels)
    ensures IsFirst(runs, p)
  {
    forall q | Exists(runs, q) && Before(q, p) ensures At(runs, q).mint != At(runs, p).mint {
      LabelledMeans(labels, At(runs, q).mint);
    }
  }

  lemma {:induction false} PairedThrough(labels: seq<Label>, origins: seq<Place>, runs: seq<Run>, p: Place, l: Label)
    requires IsFirst(runs, p) && Paired(labels, origins, runs, p) && l.mint == At(runs, p).mint && Speaks(l, runs, p)
    ensures Paired(labels + [l], origins + [p], runs, Next(p))
  {
    forall k | 0 <= k < |labels| ensures Before(origins[k], Next(p)) {
      BeforeNext(origins[k], p);
    }
  }

  lemma {:induction false} OneMoreLabel(labels: seq<Label>, l: Label, runs: seq<Run>, p: Place)
    requires AllLabelled(labels, runs, p)
    ensures AllLabelled(labels + [l], runs, p) && HasLabel(labels + [l], l.mint)
  {
    var longer := labels + [l];
    assert longer[|labels|] == l;
    forall q | Exists(runs, q) && Before(q, p) && At(runs, q).mint != "" ensures HasLabel(longer, At(runs, q).mint) {
      var k :| 0 <= k < |labels| && labels[k].mint == At(runs, q).mint;
      assert longer[k] == labels[k];
    }
  }

  lemma {:induction false} TrackTake(labels: seq<Label>, origins: seq<Place>, runs: seq<Run>, p: Place, l: Label)
    requires Exists(runs, p) && Tracks(labels, origins, runs, p)
    requires At(runs, p).mint != "" && At(runs, p).mint !in LabelledMints(labels)
    requires l.mint == At(runs, p).mint && Speaks(l, runs, p)
    ensures Tracks(labels + [l], origins + [p], runs, Next(p))
  {
    NewMintIsFirst(labels, runs, p);
    PairedThrough(labels, origins, runs, p, l);
    OneMoreLabel(labels, l, runs, p);
    LabelledThrough(labels + [l], runs, p);
  }

  lemma {:induction false} LabelSpeaks(runs: seq<Run>, p: Place)
    requires Exists(runs, p)
    ensures Speaks(LabelOf(runs[p.run], SegmentsOf(SegmentMaps(runs), runs[p.run]), At(runs, p)), runs, p)
  {
    var run, a := runs[p.run], At(runs, p);
    forall w: nat | LastOf(runs, w, run.sliceId)
      ensures Tells(LabelOf(run, SegmentsOf(SegmentMaps(runs), run), a), run, a,
                    CleanIn(runs[w], a.segmentId), LossyIn(runs[w], a.segmentId))
    {
      SegmentsAreLast(runs, w, run);
      LabelExactly(run, runs[w], a);
    }
  }

  /** One more attempt of a run. */
  lemma {:induction false} AttemptTracked(runs: seq<Run>, p: Place, labels: seq<Label>, origins: seq<Place>, next: seq<Label>)
      returns (after: seq<Place>)
    requires Exists(runs, p) && Tracks(labels, origins, runs, p)
    requires var a := At(runs, p);
             next == if a.mint == "" || a.mint in LabelledMints(labels) then labels
                     else labels + [LabelOf(runs[p.run], SegmentsOf(SegmentMaps(runs), runs[p.run]), a)]
    ensures Tracks(next, after, runs, Next(p))
  {
    var a := At(runs, p);
    if a.mint == "" || a.mint in LabelledMints(labels) {
      TrackSkip(labels, origins, runs, p);
      after := origins;
    } else {
      LabelSpeaks(runs, p);
      TrackTake(labels, origins, runs, p, LabelOf(runs[p.run], SegmentsOf(SegmentMaps(runs), runs[p.run]), a));
      after := origins + [p];
    }
  }

  /** The labels of the first `m` attempts of run `i`, added to those of the earlier runs. */
  lemma {:induction false} RunTracked(runs: seq<Run>, i: nat, m: nat, before: seq<Label>, origins: seq<Place>)
      returns (after: seq<Place>)
    requires i < |runs| && m <= |runs[i].attempts| && Tracks(before, origins, runs, Place(i, 0))
    ensures Tracks(Extend(before, runs[i], SegmentsOf(SegmentMaps(runs), runs[i]), runs[i].attempts[..m]),
                   after, runs, Place(i, m))
    decreases m
  {
    if m == 0 {
      after := origins;
    } else {
      var segments, attempts := SegmentsOf(SegmentMaps(runs), runs[i]), runs[i].attempts;
      var k := m - 1;
      var shorter := RunTracked(runs, i, k, before, origins);
      assert attempts[..m][..k] == attempts[..k];
      after := AttemptTracked(runs, Place(i, k), Extend(before, runs[i], segments, attempts[..k]), shorter,
                              Extend(before, runs[i], segments, attempts[..m]));
    }
  }

  lemma {:induction false} NextRun(labels: seq<Label>, origins: seq<Place>, runs: seq<Run>, i: nat)
    requires i < |runs| && Tracks(labels, origins, runs, Place(i, |runs[i].attempts|))
    ensures Tracks(labels, origins, runs, Place(i + 1, 0))
  {
    forall q | Exists(runs, q) && Before(q, Place(i + 1, 0)) ensures Before(q, Place(i, |runs[i].attempts|)) {
    }
  }

  lemma {:induction false} AllTracked(runs: seq<Run>, n: nat) returns (origins: seq<Place>)
    requires n <= |runs|
    ensures Tracks(LabelsFor(runs[..n], SegmentMaps(runs)), origins, runs, Place(n, 0))
    decreases n
  {
    if n == 0 {
      origins := [];
    } else {
      var i := n - 1;
      origins := AllTracked(runs, i);
      assert runs[..n][..i] == runs[..i] && runs[i].attempts[..|runs[i].attempts|] == runs[i].attempts;
      origins := RunTracked(runs, i, |runs[i].attempts|, LabelsFor(runs[..i], SegmentMaps(runs)), origins);
      NextRun(LabelsFor(runs[..n], SegmentMaps(runs)), origins, runs, i);
    }
  }

  lemma {:induction false} FirstIsTracked(labels: seq<Label>, origins: seq<Place>, runs: seq<Run>, p: Place)
    requires Tracks(labels, origins, runs, Place(|runs|, 0)) && IsFirst(runs, p)
    ensures p in origins
  {
    var k :| 0 <= k < |labels| && labels[k].mint == At(runs, p).mint;
    assert !Before(p, origins[k]) && !Before(origins[k], p);
  }

  /** The built labels are those of the first attempts of all mints, in run and
      attempt order, and each says what there is to say about its attempt. */
  lemma {:induction false} LabelsExactly(runs: seq<Run>) returns (origins: seq<Place>)
    ensures var labels := LabelsFor(runs, SegmentMaps(runs));
            && |origins| == |labels| && InOrder(origins)
            && (forall k :: 0 <= k < |labels| ==> IsFirst(runs, origins[k]) && Speaks(labels[k], runs, origins[k]))
            && (forall p :: IsFirst(runs, p) ==> p in origins)
  {
    origins := AllTracked(runs, |runs|);
    assert runs[..|runs|] == runs;
    var labels := LabelsFor(runs, SegmentMaps(runs));
    forall p | IsFirst(runs, p) ensures p in origins {
      FirstIsTracked(labels, origins, runs, p);
    }
  }

  /** There is always a last run of a slice id, and only one; with distinct slice ids
      it is the run itself. */
  lemma {:induction false} LastIsUnique(runs: seq<Run>, i: nat) returns (w: nat)
    requires i < |runs|
    ensures LastOf(runs, w, runs[i].sliceId) && forall v: nat :: LastOf(runs, v, runs[i].sliceId) ==> v == w
    ensures (forall v :: 0 <= v < |runs| && v != i ==> runs[v].sliceId != runs[i].sliceId) ==> w == i
  {
    w := LastExists(runs, i, |runs|);
  }
}
