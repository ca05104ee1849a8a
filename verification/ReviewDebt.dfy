/**
  Review debt: which needs_review decisions of a run have been cleared by attestations, bound to the
  content that was reviewed.
 */
module ReviewDebt {
  import opened Text
  import opened RunRecords

  datatype AttestationDecision = Accept | Amend | Reject

  datatype Attestation = Attestation(
    id: string,
    runId: string,
    seatId: Option<string>,
    decision: AttestationDecision,
    declaredScope: string,
    excludedScope: string,
    labels: seq<string>,
    proposedBy: Option<string>,
    attestedBy: string,
    note: string,
    subjectDigest: string,
    attestedAt: Time,
    clearsDecisions: seq<string>)

  datatype DebtItem = DebtItem(
    decisionId: string,
    runId: string,
    stepIndex: nat,
    ruleId: string,
    reason: string,
    cleared: bool,
    clearedBy: Option<string>,
    attestedBy: Option<string>,
    staleAttestation: bool)

  /******* The canonical subject *******/

  datatype StepSubject = StepSubject(index: nat, input: string, output: Option<string>, error: Option<string>)

  datatype DecisionSubject = DecisionSubject(
    id: string, stepIndex: nat, policyId: string, ruleId: string, decision: Decision, reason: string)

  /** What an attestation is bound to. The first version leaves out most of it, and is revoked. */
  datatype Subject =
    | V1(runId: string, steps: seq<StepSubject>, oldDecisions: seq<(nat, string, Decision)>)
    | V2(runId: string, taskId: string, agent: string, model: Option<string>, seats: seq<ReviewerSeat>,
         steps: seq<StepSubject>, decisions: seq<DecisionSubject>)

  function StepSubjects(run: AgentRun): seq<StepSubject> {
    seq(|run.steps|, i requires 0 <= i < |run.steps| =>
      var s := run.steps[i]; StepSubject(s.index, s.inputDigest, s.outputDigest, s.error))
  }

  function DecisionSubjectOf(d: PolicyDecision): DecisionSubject {
    DecisionSubject(d.id, d.stepIndex, d.policyId, d.ruleId, d.decision, d.reason)
  }

  function CanonicalSubject(run: AgentRun): Subject {
    V2(run.id, run.taskId, run.agent, run.model, run.reviewerSeats, StepSubjects(run),
       seq(|run.policyDecisions|,
         i requires 0 <= i < |run.policyDecisions| => DecisionSubjectOf(run.policyDecisions[i])))
  }

  /** The two runs are the same in everything a reviewer is taken to have seen: the identity of the run, its
      seats, digests and error of every step, and every policy decision but for the run it belongs to. */
  ghost predicate SameContent(v: AgentRun, w: AgentRun) {
    && v.id == w.id && v.taskId == w.taskId && v.agent == w.agent && v.model == w.model
    && v.reviewerSeats == w.reviewerSeats
    && |v.steps| == |w.steps|
    && (forall i :: 0 <= i < |v.steps| ==>
          && v.steps[i].index == w.steps[i].index
          && v.steps[i].inputDigest == w.steps[i].inputDigest
          && v.steps[i].outputDigest == w.steps[i].outputDigest
          && v.steps[i].error == w.steps[i].error)
    && |v.policyDecisions| == |w.policyDecisions|
    && (forall i :: 0 <= i < |v.policyDecisions| ==>
          v.policyDecisions[i] == w.policyDecisions[i].(runId := v.policyDecisions[i].runId))
  }

  lemma SameStepSubjects(v: AgentRun, w: AgentRun)
    requires StepSubjects(v) == StepSubjects(w)
    ensures |v.steps| == |w.steps|
    ensures forall i :: 0 <= i < |v.steps| ==>
              && v.steps[i].index == w.steps[i].index
              && v.steps[i].inputDigest == w.steps[i].inputDigest
              && v.steps[i].outputDigest == w.steps[i].outputDigest
              && v.steps[i].error == w.steps[i].error
  {
    forall i | 0 <= i < |v.steps|
      ensures i < |w.steps|
      ensures v.steps[i].index == w.steps[i].index && v.steps[i].inputDigest == w.steps[i].inputDigest
      ensures v.steps[i].outputDigest == w.steps[i].outputDigest && v.steps[i].error == w.steps[i].error
    {
      assert StepSubjects(v)[i] == StepSubjects(w)[i];
    }
  }

  /** The canonical subject binds that content, all of it and nothing else. */
  lemma SubjectIsContent(v: AgentRun, w: AgentRun)
    ensures CanonicalSubject(v) == CanonicalSubject(w) <==> SameContent(v, w)
  {
    if CanonicalSubject(v) == CanonicalSubject(w) {
      SameStepSubjects(v, w);
      forall i | 0 <= i < |v.policyDecisions|
        ensures i < |w.policyDecisions|
        ensures v.policyDecisions[i] == w.policyDecisions[i].(runId := v.policyDecisions[i].runId)
      {
        assert CanonicalSubject(v).decisions[i] == CanonicalSubject(w).decisions[i];
      }
    }
    if SameContent(v, w) {
      assert StepSubjects(v) == StepSubjects(w);
      assert CanonicalSubject(v).decisions == CanonicalSubject(w).decisions;
    }
  }

  function OldSubject(run: AgentRun): Subject {
    V1(run.id, StepSubjects(run),
       seq(|run.policyDecisions|, i requires 0 <= i < |run.policyDecisions| =>
         var d := run.policyDecisions[i]; (d.stepIndex, d.ruleId, d.decision)))
  }

  /** Foreign code: the digest of a subject, whether a text is blank once stripped,
      and what counts as a decimal digit. */
  datatype Outside = Outside(digest: Subject -> string, blank: string -> bool, digits: Digits)

  /** The versioned digest of a run; an unknown version is an error. */
  function SubjectDigest(o: Outside, run: AgentRun, version: nat): Option<string> {
    if version == 2 then Some("v" + NatToString(version) + ":" + o.digest(CanonicalSubject(run)))
    else if version == 1 then Some("v" + NatToString(version) + ":" + o.digest(OldSubject(run)))
    else None
  }

  const CLEARING_VERSIONS := {2}

  /** The number in a prefix like `v2:`. */
  function VersionOf(d: Digits, s: string): Option<nat> {
    if s != "" && s[0] == 'v' then
      var n := DigitCount(d, s[1..]);
      if n > 0 && n + 1 < |s| && s[n + 1] == ':' then Some(ParseNat(d, s[1..][..n])) else None
    else None
  }

  predicate SubjectMatches(o: Outside, run: AgentRun, digest: string) {
    match VersionOf(o.digits, digest)
    case None => false
    case Some(version) => version in CLEARING_VERSIONS && SubjectDigest(o, run, version) == Some(digest)
  }

  lemma VersionTwo(d: Digits, rest: string)
    ensures VersionOf(d, "v2:" + rest) == Some(2)
  {
    var s := "v2:" + rest;
    assert s[1..] == "2" + (":" + rest);
    DigitsThenOther(d, "2", ":" + rest);
    assert s[1..][..1] == "2" == NatToString(2);
    ParsePrinted(d, 2);
  }

  /** A digest matches a run exactly when it is the second-version digest of the run's canonical subject:
      no unversioned, revoked, unknown or oddly written version ever matches. */
  lemma MatchesIff(o: Outside, run: AgentRun, digest: string)
    ensures SubjectMatches(o, run, digest) <==> digest == "v2:" + o.digest(CanonicalSubject(run))
  {
    assert NatToString(2) == "2";
    assert "v" + "2" + ":" == "v2:";
    VersionTwo(o.digits, o.digest(CanonicalSubject(run)));
  }

  /******* Deriving the debt *******/

  predicate Names(a: Attestation, decisionId: string) {
    !a.decision.Reject? && decisionId in a.clearsDecisions
  }

  /** The attestation names the decision and is about the run as it is now. */
  predicate Clears(o: Outside, run: AgentRun, a: Attestation, decisionId: string) {
    Names(a, decisionId) && SubjectMatches(o, run, a.subjectDigest)
  }

  predicate NamesStale(o: Outside, run: AgentRun, a: Attestation, decisionId: string) {
    Names(a, decisionId) && !SubjectMatches(o, run, a.subjectDigest)
  }

  /** The first attestation that clears a decision. */
  function FirstClearing(
    o: Outside, run: AgentRun, attestations: seq<Attestation>, decisionId: string): (r: Option<Attestation>)
    ensures r.None? <==> forall a :: a in attestations ==> !Clears(o, run, a, decisionId)
    ensures r.Some? ==> r.value in attestations && Clears(o, run, r.value, decisionId)
  {
    if attestations == [] then None
    else
      var last := |attestations| - 1;
      assert attestations == attestations[..last] + [attestations[last]];
      var earlier := FirstClearing(o, run, attestations[..last], decisionId);
      if earlier.Some? then earlier
      else if Clears(o, run, attestations[last], decisionId) then Some(attestations[last])
      else None
  }

  predicate SomeStale(o: Outside, run: AgentRun, attestations: seq<Attestation>, decisionId: string) {
    exists a :: a in attestations && NamesStale(o, run, a, decisionId)
  }

  function ItemOf(run: AgentRun, d: PolicyDecision, clearing: Option<Attestation>, someStale: bool): DebtItem {
    DebtItem(d.id, run.id, d.stepIndex, d.ruleId, d.reason, clearing.Some?,
             if clearing.Some? then Some(clearing.value.id) else None,
             if clearing.Some? then Some(clearing.value.attestedBy) else None,
             clearing.None? && someStale)
  }

  function DebtUpTo(o: Outside, run: AgentRun, attestations: seq<Attestation>, n: nat): seq<DebtItem>
    requires n <= |run.policyDecisions|
  {
    if n == 0 then []
    else
      var d := run.policyDecisions[n - 1];
      DebtUpTo(o, run, attestations, n - 1) +
      if d.decision.NeedsReview? then
        [ItemOf(run, d, FirstClearing(o, run, attestations, d.id), SomeStale(o, run, attestations, d.id))]
      else []
  }

  function Debt(o: Outside, run: AgentRun, attestations: seq<Attestation>): seq<DebtItem> {
    DebtUpTo(o, run, attestations, |run.policyDecisions|)
  }

  /** The two dictionaries of the derivation hold, for each decision id, its first clearing attestation
      and whether a stale attestation names it. */
  ghost predicate Joined(
    o: Outside, run: AgentRun, attestations: seq<Attestation>, clearedBy: map<string, Attestation>,
    staleNamed: set<string>)
  {
    && (forall k :: k in clearedBy <==> FirstClearing(o, run, attestations, k).Some?)
    && (forall k :: k in clearedBy ==> FirstClearing(o, run, attestations, k) == Some(clearedBy[k]))
    && (forall k :: k in staleNamed <==> SomeStale(o, run, attestations, k))
  }

  lemma FirstOneMore(o: Outside, run: AgentRun, attestations: seq<Attestation>, i: nat, k: string)
    requires i < |attestations|
    ensures FirstClearing(o, run, attestations[..i + 1], k) ==
              if FirstClearing(o, run, attestations[..i], k).Some? then FirstClearing(o, run, attestations[..i], k)
              else if Clears(o, run, attestations[i], k) then Some(attestations[i]) else None
  {
    hide Clears;
    assert attestations[..i + 1][..i] == attestations[..i];
  }

  lemma StaleOneMore(o: Outside, run: AgentRun, attestations: seq<Attestation>, i: nat, k: string)
    requires i < |attestations|
    ensures SomeStale(o, run, attestations[..i + 1], k) <==>
              SomeStale(o, run, attestations[..i], k) || NamesStale(o, run, attestations[i], k)
  {
    var prefix := attestations[..i + 1];
    assert prefix == attestations[..i] + [attestations[i]];
    if SomeStale(o, run, attestations[..i], k) {
      var a :| a in attestations[..i] && NamesStale(o, run, a, k);
      assert a in prefix;
    }
    assert attestations[i] in prefix;
  }

  lemma JoinOneMore(
    o: Outside, run: AgentRun, attestations: seq<Attestation>, i: nat,
    before: map<string, Attestation>, staleBefore: set<string>, after: map<string, Attestation>,
    staleAfter: set<string>)
    requires i < |attestations| && Joined(o, run, attestations[..i], before, staleBefore)
    requires forall k :: k in after <==> k in before || Clears(o, run, attestations[i], k)
    requires forall k :: k in after ==> after[k] == if k in before then before[k] else attestations[i]
    requires forall k :: k in staleAfter <==> k in staleBefore || NamesStale(o, run, attestations[i], k)
    ensures Joined(o, run, attestations[..i + 1], after, staleAfter)
  {
    hide Clears, NamesStale, FirstClearing, SomeStale;
    forall k
      ensures FirstClearing(o, run, attestations[..i + 1], k) ==
                if FirstClearing(o, run, attestations[..i], k).Some? then FirstClearing(o, run, attestations[..i], k)
                else if Clears(o, run, attestations[i], k) then Some(attestations[i]) else None
      ensures SomeStale(o, run, attestations[..i + 1], k) <==>
                SomeStale(o, run, attestations[..i], k) || NamesStale(o, run, attestations[i], k)
    {
      FirstOneMore(o, run, attestations, i, k);
      StaleOneMore(o, run, attestations, i, k);
    }
  }

  method JoinAttestations(o: Outside, run: AgentRun, attestations: seq<Attestation>)
    returns (clearedBy: map<string, Attestation>, staleNamed: set<string>)
    ensures Joined(o, run, attestations, clearedBy, staleNamed)
  {
    clearedBy, staleNamed := map[], {};
    for i := 0 to |attestations|
      invariant Joined(o, run, attestations[..i], clearedBy, staleNamed)
    {
      var a := attestations[i];
      ghost var before, staleBefore := clearedBy, staleNamed;
      if !a.decision.Reject? {
        var matching := SubjectMatches(o, run, a.subjectDigest);
        for j := 0 to |a.clearsDecisions|
          invariant forall k :: k in clearedBy <==> k in before || (matching && k in a.clearsDecisions[..j])
          invariant forall k :: k in clearedBy ==> clearedBy[k] == if k in before then before[k] else a
          invariant forall k :: k in staleNamed <==> k in staleBefore || (!matching && k in a.clearsDecisions[..j])
        {
          var id := a.clearsDecisions[j];
          assert a.clearsDecisions[..j + 1] == a.clearsDecisions[..j] + [id];
          if matching {
            if id !in clearedBy {
              clearedBy := clearedBy[id := a];
            }
          } else {
            staleNamed := staleNamed + {id};
          }
        }
        assert a.clearsDecisions[..|a.clearsDecisions|] == a.clearsDecisions;
      }
      JoinOneMore(o, run, attestations, i, before, staleBefore, clearedBy, staleNamed);
    }
    assert attestations[..|attestations|] == attestations;
  }

  method ComputeReviewDebt(o: Outside, run: AgentRun, attestations: seq<Attestation>) returns (items: seq<DebtItem>)
    ensures items == Debt(o, run, attestations)
  {
    hide FirstClearing, SomeStale, Joined, ItemOf;
    var clearedBy, staleNamed := JoinAttestations(o, run, attestations);
    items := [];
    for i := 0 to |run.policyDecisions|
      invariant items == DebtUpTo(o, run, attestations, i)
    {
      var d := run.policyDecisions[i];
      if d.decision.NeedsReview? {
        var clearing := if d.id in clearedBy then Some(clearedBy[d.id]) else None;
        items := items + [ItemOf(run, d, clearing, d.id in staleNamed)];
      }
    }
  }

  /******* What the debt says *******/

  /** The items belong to the needs_review decisions of the run; each is cleared exactly when some
      non-reject attestation names it under the current subject, and flagged stale exactly when it is
      open and a non-reject attestation names it under another. */
  lemma {:induction false} ItemsSay(o: Outside, run: AgentRun, attestations: seq<Attestation>, n: nat, item: DebtItem)
    requires n <= |run.policyDecisions| && item in DebtUpTo(o, run, attestations, n)
    ensures exists d :: d in run.policyDecisions[..n] && d.decision.NeedsReview? && d.id == item.decisionId
              && d.stepIndex == item.stepIndex && d.ruleId == item.ruleId && d.reason == item.reason
    ensures item.runId == run.id && (!item.cleared ==> item.clearedBy.None? && item.attestedBy.None?)
    ensures item.cleared <==> exists a :: a in attestations && Clears(o, run, a, item.decisionId)
    ensures item.cleared ==>
              exists a :: a in attestations && Clears(o, run, a, item.decisionId)
                && item.clearedBy == Some(a.id) && item.attestedBy == Some(a.attestedBy)
    ensures item.staleAttestation <==>
              !item.cleared && exists a :: a in attestations && NamesStale(o, run, a, item.decisionId)
  {
    var d := run.policyDecisions[n - 1];
    assert run.policyDecisions[..n] == run.policyDecisions[..n - 1] + [d];
    if item in DebtUpTo(o, run, attestations, n - 1) {
      ItemsSay(o, run, attestations, n - 1, item);
    } else {
      assert d in run.policyDecisions[..n];
      assert item == ItemOf(run, d, FirstClearing(o, run, attestations, d.id), SomeStale(o, run, attestations, d.id));
    }
  }

  /** Every needs_review decision has its item. */
  lemma {:induction false} EveryDecisionOwes(o: Outside, run: AgentRun, attestations: seq<Attestation>, n: nat, i: nat)
    requires i < n <= |run.policyDecisions| && run.policyDecisions[i].decision.NeedsReview?
    ensures exists item :: item in DebtUpTo(o, run, attestations, n) && item.decisionId == run.policyDecisions[i].id
  {
    if i < n - 1 {
      EveryDecisionOwes(o, run, attestations, n - 1, i);
      var item :| item in DebtUpTo(o, run, attestations, n - 1) && item.decisionId == run.policyDecisions[i].id;
      assert item in DebtUpTo(o, run, attestations, n);
    } else {
      var d := run.policyDecisions[i];
      var item := ItemOf(run, d, FirstClearing(o, run, attestations, d.id), SomeStale(o, run, attestations, d.id));
      assert item in DebtUpTo(o, run, attestations, n);
    }
  }

  /** How many of the first `n` decisions ask for a review. */
  function Owed(run: AgentRun, n: nat): nat
    requires n <= |run.policyDecisions|
  {
    if n == 0 then 0 else Owed(run, n - 1) + if run.policyDecisions[n - 1].decision.NeedsReview? then 1 else 0
  }

  lemma {:induction false} ItemCount(o: Outside, run: AgentRun, attestations: seq<Attestation>, n: nat)
    requires n <= |run.policyDecisions|
    ensures |DebtUpTo(o, run, attestations, n)| == Owed(run, n)
  {
    if n > 0 {
      ItemCount(o, run, attestations, n - 1);
    }
  }

  /** There is one item for each such decision, in the order of the decisions. */
  lemma {:induction false} OneItemEach(o: Outside, run: AgentRun, attestations: seq<Attestation>, n: nat, i: nat)
    requires i < n <= |run.policyDecisions| && run.policyDecisions[i].decision.NeedsReview?
    ensures |DebtUpTo(o, run, attestations, n)| == Owed(run, n) > Owed(run, i)
    ensures DebtUpTo(o, run, attestations, n)[Owed(run, i)].decisionId == run.policyDecisions[i].id
  {
    ItemCount(o, run, attestations, n);
    ItemCount(o, run, attestations, n - 1);
    if i < n - 1 {
      OneItemEach(o, run, attestations, n - 1, i);
    }
  }

  lemma {:induction false} FirstClearingStays(
    o: Outside, run: AgentRun, before: seq<Attestation>, more: seq<Attestation>, id: string)
    requires FirstClearing(o, run, before, id).Some?
    ensures FirstClearing(o, run, before + more, id) == FirstClearing(o, run, before, id)
  {
    if more == [] {
      assert before + more == before;
    } else {
      assert (before + more)[..|before + more| - 1] == before + more[..|more| - 1];
      FirstClearingStays(o, run, before, more[..|more| - 1], id);
    }
  }

  /** Adding attestations to an unchanged run never reopens an item, nor does it change who cleared it. */
  lemma {:induction false} AttestingNeverReopens(
    o: Outside, run: AgentRun, before: seq<Attestation>, more: seq<Attestation>, n: nat)
    requires n <= |run.policyDecisions|
    ensures var old', new' := DebtUpTo(o, run, before, n), DebtUpTo(o, run, before + more, n);
            |old'| == |new'| && forall i :: 0 <= i < |old'| && old'[i].cleared ==> new'[i] == old'[i]
  {
    if n == 0 {
    } else {
      AttestingNeverReopens(o, run, before, more, n - 1);
      var d := run.policyDecisions[n - 1];
      if FirstClearing(o, run, before, d.id).Some? {
        FirstClearingStays(o, run, before, more, d.id);
      }
    }
  }

  /******* Writing attestations *******/

  datatype Request = Request(
    decision: AttestationDecision,
    declaredScope: string,
    attestedBy: string,
    excludedScope: string,
    labels: seq<string>,
    proposedBy: Option<string>,
    seatId: Option<string>,
    note: string,
    clearsDecisions: seq<string>)

  datatype Refusal = UnknownRun | ForeignSeat | NoSeat | RejectCannotClear | NotReviewable | BlankField

  datatype Prepared = Accepted(attestation: Attestation) | Refused(reason: Refusal)

  /** The elements of a list without repetitions, in the order of their first occurrence. */
  function WithoutRepeats(s: seq<string>): (r: seq<string>)
    ensures forall x :: x in r <==> x in s
    ensures forall i, j :: 0 <= i < j < |r| ==> r[i] != r[j]
  {
    if s == [] then []
    else
      var last := |s| - 1;
      assert s == s[..last] + [s[last]];
      var r := WithoutRepeats(s[..last]);
      if s[last] in r then r else r + [s[last]]
  }

  predicate DeclaresSeat(run: AgentRun, seatId: string) {
    exists s :: s in run.reviewerSeats && s.id == seatId
  }

  /** The run has a needs_review decision of this id. */
  predicate Reviewable(run: AgentRun, decisionId: string) {
    exists d :: d in run.policyDecisions && d.decision.NeedsReview? && d.id == decisionId
  }

  /** The attestation a request leads to, given the run as it was read. */
  function Prepare(o: Outside, run: AgentRun, request: Request, id: string, at: Time): Prepared {
    var clears := WithoutRepeats(request.clearsDecisions);
    if request.seatId.Some? && !DeclaresSeat(run, request.seatId.value) then Refused(ForeignSeat)
    else if clears != [] && request.seatId.None? then Refused(NoSeat)
    else if clears != [] && request.decision.Reject? then Refused(RejectCannotClear)
    else if exists c :: c in clears && !Reviewable(run, c) then Refused(NotReviewable)
    else if o.blank(request.attestedBy) || o.blank(request.declaredScope) then Refused(BlankField)
    else Accepted(Attestation(id, run.id, request.seatId, request.decision, request.declaredScope,
      request.excludedScope,
                              request.labels, request.proposedBy, request.attestedBy, request.note,
                              SubjectDigest(o, run, 2).value, at, clears))
  }

  /** What every attestation written through the API guarantees about the run it was read from. */
  predicate Founded(o: Outside, run: AgentRun, a: Attestation) {
    && a.runId == run.id
    && a.subjectDigest == "v2:" + o.digest(CanonicalSubject(run))
    && (a.clearsDecisions != [] ==> !a.decision.Reject? && a.seatId.Some?)
    && (a.seatId.Some? ==> DeclaresSeat(run, a.seatId.value))
    && (forall c :: c in a.clearsDecisions ==> Reviewable(run, c))
    && !o.blank(a.attestedBy) && !o.blank(a.declaredScope)
  }

  lemma PreparedIsFounded(o: Outside, run: AgentRun, request: Request, id: string, at: Time)
    requires Prepare(o, run, request, id, at).Accepted?
    ensures Founded(o, run, Prepare(o, run, request, id, at).attestation)
  {
    assert NatToString(2) == "2";
    assert "v" + "2" + ":" == "v2:";
  }

  /** When each refusal is given: for the first reason that applies. */
  lemma RefusedIff(o: Outside, run: AgentRun, request: Request, id: string, at: Time)
    ensures var result, clearsSome := Prepare(o, run, request, id, at), request.clearsDecisions != [];
            var foreign := request.seatId.Some? && forall s :: s in run.reviewerSeats ==> s.id != request.seatId.value;
            var unknown := exists c :: c in request.clearsDecisions &&
                             forall d :: d in run.policyDecisions && d.id == c ==> !d.decision.NeedsReview?;
            && (result == Refused(ForeignSeat) <==> foreign)
            && (result == Refused(NoSeat) <==> clearsSome && request.seatId.None?)
            && (result == Refused(RejectCannotClear) <==>
                  !foreign && clearsSome && request.seatId.Some? && request.decision.Reject?)
            && (result == Refused(NotReviewable) <==>
                  !foreign && request.seatId.Some? && !request.decision.Reject? && unknown)
            && (result == Refused(BlankField) <==>
                  && !foreign && (clearsSome ==> request.seatId.Some? && !request.decision.Reject?) && !unknown
                  && (o.blank(request.attestedBy) || o.blank(request.declaredScope)))
            && result != Refused(UnknownRun)
  {
    var clears := WithoutRepeats(request.clearsDecisions);
    assert clears == [] <==> request.clearsDecisions == [] by {
      if request.clearsDecisions != [] {
        assert request.clearsDecisions[0] in clears;
      }
      if clears != [] {
        assert clears[0] in request.clearsDecisions;
      }
    }
    if request.seatId.Some? && DeclaresSeat(run, request.seatId.value) {
      var seat :| seat in run.reviewerSeats && seat.id == request.seatId.value;
    }
    if c :| c in request.clearsDecisions && !Reviewable(run, c) {
      assert c in clears;
    }
  }

  /** An accepted request is written down as it was made, each decision named once. */
  lemma PreparedIsRequested(o: Outside, run: AgentRun, request: Request, id: string, at: Time)
    requires Prepare(o, run, request, id, at).Accepted?
    ensures var a := Prepare(o, run, request, id, at).attestation;
            && a.id == id && a.runId == run.id && a.attestedAt == at
            && a.seatId == request.seatId && a.decision == request.decision && a.declaredScope == request.declaredScope
            && a.excludedScope == request.excludedScope && a.labels == request.labels && a.note == request.note
            && a.proposedBy == request.proposedBy && a.attestedBy == request.attestedBy
            && (forall c :: c in a.clearsDecisions <==> c in request.clearsDecisions)
            && (forall i, j :: 0 <= i < j < |a.clearsDecisions| ==> a.clearsDecisions[i] != a.clearsDecisions[j])
  {
  }

  /** The attestations about a run, in the order in which they were written. */
  function AttestationsOf(attestations: seq<Attestation>, runId: string): (found: seq<Attestation>)
    ensures forall a :: a in found <==> a in attestations && a.runId == runId
  {
    if attestations == [] then []
    else
      var last := |attestations| - 1;
      assert attestations == attestations[..last] + [attestations[last]];
      var own := if attestations[last].runId == runId then [attestations[last]] else [];
      AttestationsOf(attestations[..last], runId) + own
  }

  lemma NoneListed(runId: string)
    ensures AttestationsOf([], runId) == []
  {
  }

  lemma OneMoreListed(attestations: seq<Attestation>, a: Attestation, runId: string)
    ensures AttestationsOf(attestations + [a], runId) ==
            AttestationsOf(attestations, runId) + if a.runId == runId then [a] else []
  {
    assert (attestations + [a])[..|attestations|] == attestations;
  }

  /** Later attestations are listed after earlier ones. */
  lemma {:induction false} ListedInOrder(earlier: seq<Attestation>, later: seq<Attestation>, runId: string)
    ensures AttestationsOf(earlier + later, runId) == AttestationsOf(earlier, runId) + AttestationsOf(later, runId)
  {
    hide AttestationsOf;
    if later == [] {
      assert earlier + later == earlier;
      NoneListed(runId);
      assert AttestationsOf(earlier, runId) + [] == AttestationsOf(earlier, runId);
    } else {
      var n := |later| - 1;
      ListedInOrder(earlier, later[..n], runId);
      OneMoreListed(earlier + later[..n], later[n], runId);
      OneMoreListed(later[..n], later[n], runId);
      assert earlier + later == earlier + later[..n] + [later[n]] && later == later[..n] + [later[n]];
    }
  }

  function Without(attestations: seq<Attestation>, id: string): (kept: seq<Attestation>)
    ensures forall a :: a in kept <==> a in attestations && a.id != id
  {
    if attestations == [] then []
    else
      var last := |attestations| - 1;
      assert attestations == attestations[..last] + [attestations[last]];
      Without(attestations[..last], id) + if attestations[last].id != id then [attestations[last]] else []
  }

  /** A row with the id of the attestation is replaced: the attestation is now the latest. */
  function Stored(attestations: seq<Attestation>, a: Attestation): seq<Attestation> {
    Without(attestations, a.id) + [a]
  }

  /** With a new id nothing is lost: storing appends. */
  lemma {:induction false} NewIdRemovesNothing(attestations: seq<Attestation>, id: string)
    requires forall a :: a in attestations ==> a.id != id
    ensures Without(attestations, id) == attestations
  {
    if attestations == [] {
    } else {
      var last := |attestations| - 1;
      assert attestations == attestations[..last] + [attestations[last]];
      NewIdRemovesNothing(attestations[..last], id);
    }
  }

  class AttestationStore {
    var runs: map<string, AgentRun>
    var attestations: seq<Attestation>

    /** Runs are stored under their own ids. */
    ghost predicate Keyed()
      reads this
    {
      forall id :: id in runs ==> runs[id].id == id
    }

    constructor ()
      ensures runs == map[] && attestations == [] && Keyed()
    {
      runs, attestations := map[], [];
    }

    method SaveRun(run: AgentRun)
      requires Keyed()
      modifies this`runs
      ensures Keyed() && runs == old(runs)[run.id := run]
    {
      runs := runs[run.id := run];
    }

    method ListAttestations(runId: string) returns (found: seq<Attestation>)
      ensures found == AttestationsOf(attestations, runId)
    {
      found := [];
      for i := 0 to |attestations|
        invariant found == AttestationsOf(attestations[..i], runId)
      {
        assert attestations[..i + 1][..i] == attestations[..i];
        if attestations[i].runId == runId {
          found := found + [attestations[i]];
        }
      }
      assert attestations[..|attestations|] == attestations;
    }

    method GetRun(runId: string) returns (run: Option<AgentRun>)
      ensures run == if runId in runs then Some(runs[runId]) else None
    {
      run := if runId in runs then Some(runs[runId]) else None;
    }

    /** The second half of reading a debt: `run` was read by an earlier call, and may have been overwritten
        since; the attestations are those stored now. */
    method GetReviewDebt(o: Outside, run: AgentRun) returns (items: seq<DebtItem>)
      ensures items == Debt(o, run, AttestationsOf(attestations, run.id))
    {
      var found := ListAttestations(run.id);
      items := ComputeReviewDebt(o, run, found);
    }

    method SaveAttestation(a: Attestation)
      modifies this`attestations
      ensures attestations == Stored(old(attestations), a)
    {
      attestations := Without(attestations, a.id) + [a];
    }

    method CreateAttestation(o: Outside, runId: string, request: Request, id: string, at: Time)
      returns (result: Prepared)
      requires Keyed()
      modifies this`attestations
      ensures Keyed()
      ensures result == if runId in runs then Prepare(o, runs[runId], request, id, at) else Refused(UnknownRun)
      ensures attestations == if result.Accepted? then Stored(old(attestations), result.attestation)
                else old(attestations)
    {
      if runId !in runs {
        return Refused(UnknownRun);
      }
      var run := runs[runId];
      if request.seatId.Some? && !DeclaresSeat(run, request.seatId.value) {
        return Refused(ForeignSeat);
      }
      var clears := WithoutRepeats(request.clearsDecisions);
      if clears != [] {
        if request.seatId.None? {
          return Refused(NoSeat);
        }
        if request.decision.Reject? {
          return Refused(RejectCannotClear);
        }
        if exists c :: c in clears && !Reviewable(run, c) {
          return Refused(NotReviewable);
        }
      }
      if o.blank(request.attestedBy) || o.blank(request.declaredScope) {
        return Refused(BlankField);
      }
      var attestation := Attestation(
        id, runId, request.seatId, request.decision, request.declaredScope, request.excludedScope, request.labels,
        request.proposedBy, request.attestedBy, request.note, SubjectDigest(o, run, 2).value, at, clears);
      SaveAttestation(attestation);
      return Accepted(attestation);
    }
  }

  /******* Histories *******/

  /** One run in the store: its content now, all contents it ever had, the attestations written for it,
      and the attestations that API calls have prepared from what they read but not yet written. */
  datatype Record = Record(
    run: AgentRun, versions: seq<AgentRun>, attestations: seq<Attestation>, inFlight: map<nat, Attestation>)

  /** A write for another run takes the place of an attestation with the same id. */
  datatype Event =
    | Overwrite(run: AgentRun)
    | ReadAndCheck(call: nat, request: Request, id: string, at: Time)
    | Write(call: nat)
    | WriteElsewhere(id: string)

  predicate Possible(o: Outside, r: Record, e: Event) {
    match e
    case Overwrite(run) => run.id == r.run.id
    case ReadAndCheck(call, request, id, at) => call !in r.inFlight && Prepare(o, r.run, request, id, at).Accepted?
    case Write(call) => call in r.inFlight
    case WriteElsewhere(id) => true
  }

  function Happens(o: Outside, r: Record, e: Event): Record
    requires Possible(o, r, e)
  {
    match e
    case Overwrite(run) => r.(run := run, versions := r.versions + [run])
    case ReadAndCheck(call, request, id, at) =>
      r.(inFlight := r.inFlight[call := Prepare(o, r.run, request, id, at).attestation])
    case Write(call) => r.(attestations := Stored(r.attestations, r.inFlight[call]), inFlight := r.inFlight - {call})
    case WriteElsewhere(id) => r.(attestations := Without(r.attestations, id))
  }

  ghost predicate Step(o: Outside, before: Record, e: Event, after: Record) {
    Possible(o, before, e) && after == Happens(o, before, e)
  }

  ghost predicate IsHistory(o: Outside, records: seq<Record>, events: seq<Event>) {
    && |records| == |events| + 1
    && records[0] == Record(records[0].run, [records[0].run], [], map[])
    && (forall i :: 0 <= i < |events| ==> Step(o, records[i], events[i], records[i + 1]))
  }

  ghost predicate FoundedInSome(o: Outside, versions: seq<AgentRun>, a: Attestation) {
    exists v :: v in versions && Founded(o, v, a)
  }

  ghost predicate RecordInv(o: Outside, r: Record) {
    && r.run in r.versions
    && (forall a :: a in r.attestations ==> FoundedInSome(o, r.versions, a))
    && (forall call :: call in r.inFlight ==> FoundedInSome(o, r.versions, r.inFlight[call]))
  }

  lemma EventKeepsInv(o: Outside, r: Record, e: Event)
    requires RecordInv(o, r) && Possible(o, r, e)
    ensures RecordInv(o, Happens(o, r, e))
  {
    hide Founded, Prepare;
    match e
    case Overwrite(run) =>
      forall a | FoundedInSome(o, r.versions, a) ensures FoundedInSome(o, r.versions + [run], a) {
      }
    case ReadAndCheck(call, request, id, at) =>
      PreparedIsFounded(o, r.run, request, id, at);
      assert FoundedInSome(o, r.versions, Prepare(o, r.run, request, id, at).attestation);
    case Write(call) =>
      assert FoundedInSome(o, r.versions, r.inFlight[call]);
    case WriteElsewhere(id) =>
  }

  lemma {:induction false} HistoryKeepsInv(o: Outside, records: seq<Record>, events: seq<Event>, i: nat)
    requires IsHistory(o, records, events) && i <= |events|
    ensures RecordInv(o, records[i])
  {
    if i == 0 {
    } else {
      hide RecordInv, Possible, Happens;
      HistoryKeepsInv(o, records, events, i - 1);
      assert Step(o, records[i - 1], events[i - 1], records[i - 1 + 1]);
      EventKeepsInv(o, records[i - 1], events[i - 1]);
    }
  }

  /** A non-reject attestation that names the decision for review, made by a declared seat, from
      reading this content of the run. */
  ghost predicate Reviewed(o: Outside, version: AgentRun, a: Attestation, decisionId: string) {
    && Founded(o, version, a) && Names(a, decisionId)
    && a.seatId.Some? && DeclaresSeat(version, a.seatId.value) && Reviewable(version, decisionId)
  }

  lemma ClearingIsReviewed(o: Outside, version: AgentRun, run: AgentRun, a: Attestation, decisionId: string)
    requires Founded(o, version, a) && Clears(o, run, a, decisionId)
    ensures Reviewed(o, version, a, decisionId)
    ensures o.digest(CanonicalSubject(version)) == o.digest(CanonicalSubject(run))
  {
    hide CanonicalSubject, SubjectMatches;
    MatchesIff(o, run, a.subjectDigest);
    var current, read := o.digest(CanonicalSubject(run)), o.digest(CanonicalSubject(version));
    assert current == ("v2:" + current)[3..] == ("v2:" + read)[3..] == read;
  }

  /**
    Over every history of overwrites and attestations, with reads and writes of different calls
    interleaved at will: an item is cleared only if a declared seat attested its decision, not
    rejecting, against a content of the run whose canonical subject has the digest of the run that was
    read. The debt is derived from a run read at one moment and attestations read at a later one.
   */
  lemma ClearedMeansReviewed(
    o: Outside, records: seq<Record>, events: seq<Event>, i: nat, j: nat, item: DebtItem)
    requires IsHistory(o, records, events) && i <= j <= |events|
    requires item in Debt(o, records[i].run, records[j].attestations) && item.cleared
    ensures exists a, v :: a in records[j].attestations && v in records[j].versions
              && Reviewed(o, v, a, item.decisionId)
              && o.digest(CanonicalSubject(v)) == o.digest(CanonicalSubject(records[i].run))
  {
    hide Step, Founded, Clears, Reviewed, CanonicalSubject;
    var run, r := records[i].run, records[j];
    HistoryKeepsInv(o, records, events, j);
    ItemsSay(o, run, r.attestations, |run.policyDecisions|, item);
    var a :| a in r.attestations && Clears(o, run, a, item.decisionId);
    var v :| v in r.versions && Founded(o, v, a);
    ClearingIsReviewed(o, v, run, a, item.decisionId);
  }

  ghost predicate NoCollision(o: Outside, v: AgentRun, run: AgentRun) {
    o.digest(CanonicalSubject(v)) == o.digest(CanonicalSubject(run)) ==> CanonicalSubject(v) == CanonicalSubject(run)
  }

  lemma SubjectKeepsReviewable(v: AgentRun, run: AgentRun, decisionId: string)
    requires CanonicalSubject(v) == CanonicalSubject(run)
    ensures Reviewable(v, decisionId) ==> Reviewable(run, decisionId)
  {
    if Reviewable(v, decisionId) {
      var d :| d in v.policyDecisions && d.decision.NeedsReview? && d.id == decisionId;
      var k :| 0 <= k < |v.policyDecisions| && v.policyDecisions[k] == d;
      assert CanonicalSubject(v).decisions[k] == CanonicalSubject(run).decisions[k];
      assert run.policyDecisions[k] in run.policyDecisions;
    }
  }

  lemma SameSubjectSameReview(v: AgentRun, run: AgentRun, seatId: string, decisionId: string)
    requires CanonicalSubject(v) == CanonicalSubject(run)
    ensures DeclaresSeat(v, seatId) <==> DeclaresSeat(run, seatId)
    ensures Reviewable(v, decisionId) <==> Reviewable(run, decisionId)
  {
    assert v.reviewerSeats == run.reviewerSeats;
    SubjectKeepsReviewable(v, run, decisionId);
    SubjectKeepsReviewable(run, v, decisionId);
  }

  /** If moreover no two contents of this run collide, the content reviewed and the one read are the same,
      so the attesting seat is a seat of the run as it was read. */
  lemma ClearedMeansCurrentSeat(
    o: Outside, records: seq<Record>, events: seq<Event>, i: nat, j: nat, item: DebtItem)
    requires IsHistory(o, records, events) && i <= j <= |events|
    requires item in Debt(o, records[i].run, records[j].attestations) && item.cleared
    requires forall v :: v in records[j].versions ==> NoCollision(o, v, records[i].run)
    ensures exists a, v :: a in records[j].attestations && v in records[j].versions
              && Reviewed(o, v, a, item.decisionId) && SameContent(v, records[i].run)
              && DeclaresSeat(records[i].run, a.seatId.value) && Reviewable(records[i].run, item.decisionId)
  {
    hide Step, Debt, Founded, SameContent;
    ClearedMeansReviewed(o, records, events, i, j, item);
    var run := records[i].run;
    var a, v :| a in records[j].attestations && v in records[j].versions && Reviewed(o, v, a, item.decisionId)
                && o.digest(CanonicalSubject(v)) == o.digest(CanonicalSubject(run));
    SameSubjectSameReview(v, run, a.seatId.value, item.decisionId);
    SubjectIsContent(v, run);
  }

  /******* Overwriting *******/

  /** Every attestation, written or in flight, was prepared from one of these contents. */
  ghost predicate AllFounded(o: Outside, versions: seq<AgentRun>, r: Record) {
    && (forall a :: a in r.attestations ==> FoundedInSome(o, versions, a))
    && (forall call :: call in r.inFlight ==> FoundedInSome(o, versions, r.inFlight[call]))
  }

  /** Until the next call reads the run, what is written was prepared from the contents so far. */
  lemma {:induction false} NothingNewRead(
    o: Outside, records: seq<Record>, events: seq<Event>, versions: seq<AgentRun>, k: nat, j: nat)
    requires IsHistory(o, records, events) && k <= j <= |events| && AllFounded(o, versions, records[k])
    requires forall i :: k <= i < j ==> !events[i].ReadAndCheck?
    ensures AllFounded(o, versions, records[j])
    decreases j
  {
    if k < j {
      hide FoundedInSome;
      NothingNewRead(o, records, events, versions, k, j - 1);
      assert Step(o, records[j - 1], events[j - 1], records[j - 1 + 1]);
    }
  }

  /** An attestation prepared from other content clears nothing of this run, if the digests tell the two apart. */
  lemma OtherContentIsStale(
    o: Outside, versions: seq<AgentRun>, run: AgentRun, a: Attestation, decisionId: string)
    requires FoundedInSome(o, versions, a)
    requires forall v :: v in versions ==> !SameContent(v, run) && NoCollision(o, v, run)
    ensures !Clears(o, run, a, decisionId) && (NamesStale(o, run, a, decisionId) <==> Names(a, decisionId))
  {
    hide SameContent, CanonicalSubject, SubjectMatches;
    var v :| v in versions && Founded(o, v, a);
    SubjectIsContent(v, run);
    MatchesIff(o, run, a.subjectDigest);
    var current, read := o.digest(CanonicalSubject(run)), o.digest(CanonicalSubject(v));
    assert ("v2:" + current)[3..] == current && ("v2:" + read)[3..] == read;
  }

  /**
    Overwriting a run with other content, be the difference one seat, one digest or error of a step, or one
    field of a decision, reopens everything: no item of the new content is cleared by what was attested
    before, even if it is written later, and an item is stale exactly when a non-reject attestation names it.
   */
  lemma OverwritingReopens(
    o: Outside, records: seq<Record>, events: seq<Event>, k: nat, j: nat, item: DebtItem)
    requires IsHistory(o, records, events) && k < j <= |events| && events[k].Overwrite?
    requires forall v :: v in records[k].versions ==>
               !SameContent(v, events[k].run) && NoCollision(o, v, events[k].run)
    requires forall i :: k < i < j ==> !events[i].ReadAndCheck?
    requires item in Debt(o, events[k].run, records[j].attestations)
    ensures records[k + 1].run == events[k].run
    ensures !item.cleared
    ensures item.staleAttestation <==> exists a :: a in records[j].attestations && Names(a, item.decisionId)
  {
    hide FoundedInSome, SameContent, NoCollision, Clears, Names, NamesStale;
    var run := events[k].run;
    HistoryKeepsInv(o, records, events, k);
    assert Step(o, records[k], events[k], records[k + 1]);
    NothingNewRead(o, records, events, records[k].versions, k, j);
    ItemsSay(o, run, records[j].attestations, |run.policyDecisions|, item);
    forall a | a in records[j].attestations
      ensures !Clears(o, run, a, item.decisionId)
      ensures NamesStale(o, run, a, item.decisionId) <==> Names(a, item.decisionId)
    {
      OtherContentIsStale(o, records[k].versions, run, a, item.decisionId);
    }
  }

  lemma {:induction false} SameContentSameJoin(
    o: Outside, v: AgentRun, w: AgentRun, attestations: seq<Attestation>, id: string)
    requires SameContent(v, w)
    ensures FirstClearing(o, v, attestations, id) == FirstClearing(o, w, attestations, id)
    ensures SomeStale(o, v, attestations, id) <==> SomeStale(o, w, attestations, id)
  {
    hide SameContent, SubjectMatches, CanonicalSubject;
    SubjectIsContent(v, w);
    forall digest ensures SubjectMatches(o, v, digest) <==> SubjectMatches(o, w, digest) {
      MatchesIff(o, v, digest);
      MatchesIff(o, w, digest);
    }
    if attestations != [] {
      SameContentSameJoin(o, v, w, attestations[..|attestations| - 1], id);
    }
  }

  /** Overwriting with the same content, timestamps or previews apart, keeps every item as it is. */
  lemma {:induction false} SameContentSameDebt(
    o: Outside, v: AgentRun, w: AgentRun, attestations: seq<Attestation>, n: nat)
    requires SameContent(v, w) && n <= |v.policyDecisions|
    ensures DebtUpTo(o, v, attestations, n) == DebtUpTo(o, w, attestations, n)
  {
    if n > 0 {
      assert v.policyDecisions[n - 1] == w.policyDecisions[n - 1].(runId := v.policyDecisions[n - 1].runId);
      SameContentSameJoin(o, v, w, attestations, v.policyDecisions[n - 1].id);
      SameContentSameDebt(o, v, w, attestations, n - 1);
      assert v.id == w.id;
      hide SameContent, FirstClearing, SomeStale;
    }
  }
}
