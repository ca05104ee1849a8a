/** The trajectory pruner: a trajectory is cut into segments at restarts, and repeated turns are dropped
    from each segment by a scan over windows of five turns. */
module Pruner {
  import opened PrunerKernel

  datatype Signal = NoSignal | PreRestart | CognitiveRestart | Other(text: string)

  /** A turn, reduced to what the pruner derives from it; only the signal is ever updated. */
  class Turn {
    const signature: string
    const restart: bool
    const hasReasoning: bool
    var signal: Signal

    constructor (signature: string, restart: bool, hasReasoning: bool, signal: Signal)
      ensures this.signature == signature && this.restart == restart && this.hasReasoning == hasReasoning
      ensures this.signal == signal
    {
      this.signature, this.restart, this.hasReasoning, this.signal := signature, restart, hasReasoning, signal;
    }
  }

  /** The decay of the weights, and the similarity of two turns as a score. */
  datatype Kernel = Kernel(decay: real, similarity: (Turn, Turn) -> real)

  function Signatures(segment: seq<Turn>): (s: seq<string>)
    ensures |s| == |segment|
  {
    seq(|segment|, i requires 0 <= i < |segment| => segment[i].signature)
  }

  /******* The structural scan *******/

  predicate UniformAt(s: seq<string>, i: nat) {
    i + WINDOW <= |s| && s[i] == s[i + 1] == s[i + 2] == s[i + 3] == s[i + 4]
  }

  /** The indices dropped by the scan from `index` on: of each window of equal signatures all but the first. */
  function Scan(s: seq<string>, index: nat): set<nat>
    decreases |s| - index
  {
    if index + WINDOW > |s| then {}
    else if UniformAt(s, index) then {index + 1, index + 2, index + 3, index + 4} + Scan(s, index + WINDOW)
    else Scan(s, index + 1)
  }

  /** The `k - 1` indices after `index`. */
  function After(index: nat, k: nat): set<nat> {
    if k <= 1 then {} else After(index, k - 1) + {index + k - 1}
  }

  /** The indices of the window whose signature was seen before in it. */
  method RepeatedIn(s: seq<string>, index: nat) returns (repeated: set<nat>)
    requires UniformAt(s, index)
    ensures repeated == {index + 1, index + 2, index + 3, index + 4}
  {
    repeated := {};
    var seen: set<string> := {};
    for k := 0 to WINDOW
      invariant seen == if k == 0 then {} else {s[index]}
      invariant repeated == After(index, k)
    {
      var signature := s[index + k];
      assert signature == s[index];
      if signature in seen {
        repeated := repeated + {index + k};
      } else {
        seen := seen + {signature};
      }
    }
    assert After(index, 2) == {index + 1};
    assert After(index, 4) == {index + 1, index + 2, index + 3};
  }

  method StructuralScan(s: seq<string>, decay: real) returns (pruned: set<nat>)
    requires IsDecay(decay)
    ensures pruned == Scan(s, 0)
  {
    pruned := {};
    var index := 0;
    while index + WINDOW <= |s|
      invariant 0 <= index <= |s|
      invariant pruned + Scan(s, index) == Scan(s, 0)
    {
      var window := s[index..index + WINDOW];
      var score := CalculateWindowStr(window, decay);
      WindowPassesIffAllEqual(window, decay);
      if score >= MAX_CONFIDENCE {
        var repeated := RepeatedIn(s, index);
        pruned := pruned + repeated;
        index := index + WINDOW;
      } else {
        index := index + 1;
      }
    }
  }

  /******* What the scan leaves of a run of equal signatures *******/

  /** `s[start..start + m]` is a maximal run of equal signatures. */
  predicate IsRun(s: seq<string>, start: nat, m: nat) {
    && 0 < m && start + m <= |s|
    && (forall i :: start <= i < start + m ==> s[i] == s[start])
    && (start == 0 || s[start - 1] != s[start])
    && (start + m == |s| || s[start + m] != s[start])
  }

  lemma {:induction false} ScanIsAhead(s: seq<string>, index: nat)
    ensures forall k :: k in Scan(s, index) ==> index < k < |s|
    decreases |s| - index
  {
    if index + WINDOW <= |s| {
      if UniformAt(s, index) {
        ScanIsAhead(s, index + WINDOW);
      } else {
        ScanIsAhead(s, index + 1);
      }
    }
  }

  /** The scan never jumps over the start of a run. */
  lemma {:induction false} ScanMeetsRun(s: seq<string>, index: nat, start: nat, m: nat)
    requires IsRun(s, start, m) && index <= start
    ensures forall k :: k >= start ==> (k in Scan(s, index) <==> k in Scan(s, start))
    decreases start - index
  {
    if index < start && index + WINDOW <= |s| {
      if UniformAt(s, index) {
        assert index + WINDOW <= start;
        ScanMeetsRun(s, index + WINDOW, start, m);
      } else {
        ScanMeetsRun(s, index + 1, start, m);
      }
    }
  }

  /** The scan from `index` on drops the turn `k` places ahead. */
  predicate Drops(s: seq<string>, index: nat, k: nat) {
    index + k in Scan(s, index)
  }

  lemma ScanOverWindow(s: seq<string>, index: nat, k: nat)
    requires UniformAt(s, index)
    ensures Drops(s, index, k) <==> if k < WINDOW then k != 0 else Drops(s, index + WINDOW, k - WINDOW)
  {
    ScanIsAhead(s, index + WINDOW);
    assert Scan(s, index) == {index + 1, index + 2, index + 3, index + 4} + Scan(s, index + WINDOW);
    assert k >= WINDOW ==> index + WINDOW + (k - WINDOW) == index + k;
  }

  lemma ScanStep(s: seq<string>, index: nat, k: nat)
    requires !UniformAt(s, index) && index < |s|
    ensures Drops(s, index, k) <==> k > 0 && Drops(s, index + 1, k - 1)
  {
    ScanIsAhead(s, index + 1);
    assert Scan(s, index) == Scan(s, index + 1);
    assert k > 0 ==> index + 1 + (k - 1) == index + k;
  }

  /** The k-th of `left` equal turns is not the first of its five, and its five is full. */
  predicate Repeated(k: nat, left: nat) {
    k % 5 != 0 && k < left / 5 * 5
  }

  lemma RepeatedAgain(k: nat, left: nat)
    ensures left < WINDOW ==> !Repeated(k, left)
    ensures k < WINDOW <= left ==> (Repeated(k, left) <==> k != 0)
    ensures k >= WINDOW && left >= WINDOW ==> (Repeated(k, left) <==> Repeated(k - WINDOW, left - WINDOW))
  {
    if k >= WINDOW && left >= WINDOW {
      assert (k - WINDOW) % 5 == k % 5 && (left - WINDOW) / 5 == left / 5 - 1;
    }
  }

  /** Inside a run, with `left` turns of it ahead, the scan drops all but every fifth, in full fives only. */
  lemma {:induction false} ScanInRun(s: seq<string>, start: nat, m: nat, left: nat, k: nat)
    requires IsRun(s, start, m) && k < left <= m
    ensures Drops(s, start + m - left, k) <==> Repeated(k, left)
    decreases left
  {
    hide Drops, Scan, Repeated;
    var index := start + m - left;
    RepeatedAgain(k, left);
    if left >= WINDOW {
      assert UniformAt(s, index);
      ScanOverWindow(s, index, k);
      if k >= WINDOW {
        ScanInRun(s, start, m, left - WINDOW, k - WINDOW);
      }
    } else {
      if index + WINDOW <= |s| {
        assert s[index] == s[start] && s[start + m] != s[start];
      }
      assert !UniformAt(s, index);
      ScanStep(s, index, k);
      if k > 0 {
        ScanInRun(s, start, m, left - 1, k - 1);
        RepeatedAgain(k - 1, left - 1);
      }
    }
  }

  /** Of a maximal run of `m` equal signatures the k-th turn is dropped exactly when k is not a multiple of
      five and lies in one of the full fives. */
  lemma RunIsThinned(s: seq<string>, start: nat, m: nat, k: nat)
    requires IsRun(s, start, m) && k < m
    ensures start + k in Scan(s, 0) <==> k % 5 != 0 && k < m / 5 * 5
  {
    ScanMeetsRun(s, 0, start, m);
    ScanInRun(s, start, m, m, k);
    assert Drops(s, start, k) <==> start + k in Scan(s, start);
  }

  /** How many of the first `n` turns of a run are kept. */
  function KeptOfRun(s: seq<string>, start: nat, n: nat): nat {
    if n == 0 then 0 else KeptOfRun(s, start, n - 1) + if start + n - 1 in Scan(s, 0) then 0 else 1
  }

  lemma {:induction false} KeptOfRunUpTo(s: seq<string>, start: nat, m: nat, n: nat)
    requires IsRun(s, start, m) && n <= m
    ensures KeptOfRun(s, start, n) ==
            if n <= m / 5 * 5 then (n + 4) / 5 else m / 5 + (n - m / 5 * 5)
  {
    if n == 0 {
    } else {
      KeptOfRunUpTo(s, start, m, n - 1);
      RunIsThinned(s, start, m, n - 1);
      hide Scan;
    }
  }

  /** Exactly m - 4 * floor(m / 5) turns of a run of m remain. */
  lemma RunKeeps(s: seq<string>, start: nat, m: nat)
    requires IsRun(s, start, m)
    ensures KeptOfRun(s, start, m) == m - 4 * (m / 5)
  {
    KeptOfRunUpTo(s, start, m, m);
    hide KeptOfRun;
    assert m / 5 * 5 <= m;
  }

  /** Every position belongs to a run. */
  lemma RunAround(s: seq<string>, i: nat) returns (start: nat, m: nat)
    requires i < |s|
    ensures IsRun(s, start, m) && start <= i < start + m
  {
    start := i;
    while start > 0 && s[start - 1] == s[i]
      invariant 0 <= start <= i
      invariant forall j :: start <= j <= i ==> s[j] == s[i]
    {
      start := start - 1;
    }
    var end := i + 1;
    while end < |s| && s[end] == s[i]
      invariant i < end <= |s|
      invariant forall j :: start <= j < end ==> s[j] == s[i]
    {
      end := end + 1;
    }
    m := end - start;
  }

  /** For every turn, an equal one at or before it in the same run is kept: no signature is lost. */
  lemma NoSignatureLost(s: seq<string>, i: nat)
    requires i < |s|
    ensures exists j :: 0 <= j <= i && j !in Scan(s, 0) && s[j] == s[i]
  {
    var start, m := RunAround(s, i);
    RunIsThinned(s, start, m, 0);
    assert start + 0 !in Scan(s, 0);
  }

  /******* Segments *******/

  /** The turns taken apart at the restarts: the closed segments and the one still open. */
  datatype Cut = Cut(closed: seq<seq<Turn>>, current: seq<Turn>)

  predicate ClosesBefore(cut: Cut, turn: Turn) {
    turn.restart && |cut.current| >= WINDOW
  }

  function CutUp(turns: seq<Turn>): Cut {
    if turns == [] then Cut([], [])
    else
      var before, last := CutUp(turns[..|turns| - 1]), turns[|turns| - 1];
      if ClosesBefore(before, last) then Cut(before.closed + [before.current], [last])
      else Cut(before.closed, before.current + [last])
  }

  function Segments(turns: seq<Turn>): seq<seq<Turn>> {
    var cut := CutUp(turns);
    if cut.current == [] then cut.closed else cut.closed + [cut.current]
  }

  function Flatten(parts: seq<seq<Turn>>): seq<Turn> {
    if parts == [] then [] else Flatten(parts[..|parts| - 1]) + parts[|parts| - 1]
  }

  lemma FlattenOneMore(parts: seq<seq<Turn>>, part: seq<Turn>)
    ensures Flatten(parts + [part]) == Flatten(parts) + part
  {
    assert (parts + [part])[..|parts|] == parts;
  }

  lemma NothingToFlatten()
    ensures Flatten([]) == []
  {
  }

  /** Cutting loses nothing: the segments, one after the other, are the trajectory. */
  lemma {:induction false} CutIsComplete(turns: seq<Turn>)
    ensures Flatten(CutUp(turns).closed) + CutUp(turns).current == turns
  {
    hide Flatten, ClosesBefore;
    if turns != [] {
      var n := |turns| - 1;
      CutIsComplete(turns[..n]);
      var before, last := CutUp(turns[..n]), turns[n];
      FlattenOneMore(before.closed, before.current);
      assert turns == turns[..n] + [last];
    } else {
      NothingToFlatten();
    }
  }

  lemma SegmentsAreComplete(turns: seq<Turn>)
    ensures Flatten(Segments(turns)) == turns
  {
    CutIsComplete(turns);
    var cut := CutUp(turns);
    FlattenOneMore(cut.closed, cut.current);
  }

  /** A new segment begins at turn `i`. */
  predicate CutsAt(turns: seq<Turn>, i: int) {
    0 <= i < |turns| && ClosesBefore(CutUp(turns[..i]), turns[i])
  }

  lemma CutIsBehind(turns: seq<Turn>, i: nat)
    requires CutsAt(turns, i)
    ensures i >= WINDOW
  {
    CutIsComplete(turns[..i]);
    assert |Flatten(CutUp(turns[..i]).closed)| + |CutUp(turns[..i]).current| == i;
  }

  /** The signal a turn carries after pruning. */
  function SignalAfter(turns: seq<Turn>, i: nat, before: Signal): Signal {
    if CutsAt(turns, i) then CognitiveRestart else if CutsAt(turns, i + 1) then PreRestart else before
  }

  ghost predicate Distinct(turns: seq<Turn>) {
    forall i, j :: 0 <= i < j < |turns| ==> turns[i] != turns[j]
  }

  /******* Pruning a segment *******/

  /** A window whose average similarity passes: an abstract score, averaged with the same weights. */
  function SemanticPairSum(kernel: Kernel, window: seq<Turn>, i: nat, j: nat): (real, real)
    requires i < |window| && j <= |window|
  {
    if j == 0 then (0.0, 0.0)
    else
      var before := SemanticPairSum(kernel, window, i, j - 1);
      var weight := Weight(kernel.decay, i, j - 1);
      (before.0 + kernel.similarity(window[i], window[j - 1]) * weight, before.1 + weight)
  }

  function SemanticSum(kernel: Kernel, window: seq<Turn>, i: nat): (real, real)
    requires i <= |window|
  {
    if i == 0 then (0.0, 0.0)
    else
      var before, row := SemanticSum(kernel, window, i - 1), SemanticPairSum(kernel, window, i - 1, |window|);
      (before.0 + row.0, before.1 + row.1)
  }

  function SemanticScore(kernel: Kernel, window: seq<Turn>): real {
    var sum := SemanticSum(kernel, window, |window|);
    if |window| < 2 || sum.1 <= 0.0 then 0.0 else sum.0 / sum.1
  }

  /** A turn so similar to the one before it that a passing window drops it. */
  predicate Repeats(kernel: Kernel, segment: seq<Turn>, i: nat) {
    0 < i < |segment| && kernel.similarity(segment[i], segment[i - 1]) > SEMANTIC_THRESHOLD
  }

  function SemanticScan(kernel: Kernel, segment: seq<Turn>, index: nat): set<nat>
    decreases |segment| - index
  {
    if index + WINDOW > |segment| then {}
    else if SemanticScore(kernel, segment[index..index + WINDOW]) >= SEMANTIC_THRESHOLD then
      (set i | index < i < index + WINDOW && Repeats(kernel, segment, i)) +
        SemanticScan(kernel, segment, index + WINDOW)
    else SemanticScan(kernel, segment, index + 1)
  }

  predicate UsesSemantics(segment: seq<Turn>, semantic: bool) {
    semantic && exists t :: t in segment && t.hasReasoning
  }

  /** The indices dropped from a segment. */
  function PrunedIn(kernel: Kernel, segment: seq<Turn>, semantic: bool): set<nat> {
    if |segment| <= WINDOW then {}
    else if UsesSemantics(segment, semantic) then SemanticScan(kernel, segment, 0)
    else Scan(Signatures(segment), 0)
  }

  /** The turns at the first `n` indices that are not dropped, in order. */
  function KeepUpTo(segment: seq<Turn>, pruned: set<nat>, n: nat): seq<Turn>
    requires n <= |segment|
  {
    if n == 0 then []
    else KeepUpTo(segment, pruned, n - 1) + if n - 1 in pruned then [] else [segment[n - 1]]
  }

  function PruneSegment(kernel: Kernel, segment: seq<Turn>, semantic: bool): seq<Turn> {
    KeepUpTo(segment, PrunedIn(kernel, segment, semantic), |segment|)
  }

  function PruneAll(kernel: Kernel, segments: seq<seq<Turn>>, semantic: bool): seq<Turn> {
    if segments == [] then []
    else
      var init, last := segments[..|segments| - 1], segments[|segments| - 1];
      PruneAll(kernel, init, semantic) + PruneSegment(kernel, last, semantic)
  }

  /** A trajectory of at most five turns is returned as it is. */
  function Pruned(kernel: Kernel, turns: seq<Turn>, semantic: bool): seq<Turn> {
    if |turns| <= WINDOW then turns else PruneAll(kernel, Segments(turns), semantic)
  }

  /******* How long a pruned segment is *******/

  /** The length of the run of equal signatures that begins at `start`. */
  function RunLength(s: seq<string>, start: nat): (m: nat)
    requires start < |s|
    ensures 0 < m && start + m <= |s|
    ensures forall i :: start <= i < start + m ==> s[i] == s[start]
    ensures start + m == |s| || s[start + m] != s[start]
    decreases |s| - start
  {
    if start + 1 < |s| && s[start + 1] == s[start] then 1 + RunLength(s, start + 1) else 1
  }

  /** What remains of the runs from `start` on: of a run of m turns all but four of each full five. */
  function LeftOfRuns(s: seq<string>, start: nat): nat
    requires start <= |s|
    decreases |s| - start
  {
    if start == |s| then 0
    else
      var m := RunLength(s, start);
      m - 4 * (m / 5) + LeftOfRuns(s, start + m)
  }

  lemma {:induction false} KeptAlongRun(segment: seq<Turn>, s: seq<string>, start: nat, m: nat)
    requires s == Signatures(segment) && start + m <= |segment|
    ensures |KeepUpTo(segment, Scan(s, 0), start + m)| ==
            |KeepUpTo(segment, Scan(s, 0), start)| + KeptOfRun(s, start, m)
  {
    hide Scan;
    if m == 0 {
    } else {
      KeptAlongRun(segment, s, start, m - 1);
    }
  }

  lemma {:induction false} KeptFrom(segment: seq<Turn>, s: seq<string>, start: nat)
    requires s == Signatures(segment) && start <= |s|
    requires 0 < start < |s| ==> s[start - 1] != s[start]
    ensures |KeepUpTo(segment, Scan(s, 0), |s|)| == |KeepUpTo(segment, Scan(s, 0), start)| + LeftOfRuns(s, start)
    decreases |s| - start
  {
    hide Scan, KeepUpTo, KeptOfRun, RunLength;
    if start == |s| {
    } else {
      var m := RunLength(s, start);
      KeptAlongRun(segment, s, start, m);
      RunKeeps(s, start, m);
      KeptFrom(segment, s, start + m);
    }
  }

  lemma {:induction false} NothingDropped(segment: seq<Turn>, n: nat)
    requires n <= |segment|
    ensures |KeepUpTo(segment, {}, n)| == n
  {
    if n == 0 {
    } else {
      NothingDropped(segment, n - 1);
    }
  }

  /** A structurally pruned segment of more than five turns has as many turns as its maximal runs of equal
      signatures keep: the sum of m - 4 * floor(m / 5); a shorter one keeps all. */
  lemma PrunedSegmentLength(kernel: Kernel, segment: seq<Turn>)
    ensures |PruneSegment(kernel, segment, false)| ==
            if |segment| <= WINDOW then |segment| else LeftOfRuns(Signatures(segment), 0)
  {
    hide Scan, LeftOfRuns;
    if |segment| <= WINDOW {
      NothingDropped(segment, |segment|);
    } else {
      KeptFrom(segment, Signatures(segment), 0);
    }
  }

  /******* The semantic kernel *******/

  /** Any two turns of the segment are similar to this degree. */
  ghost predicate AllSimilar(kernel: Kernel, segment: seq<Turn>, c: real) {
    forall t, u :: t in segment && u in segment ==> kernel.similarity(t, u) == c
  }

  lemma TimesSum(c: real, x: real, y: real)
    ensures c * (x + y) == c * x + c * y
  {
  }

  lemma {:induction false} SemanticRowSums(kernel: Kernel, window: seq<Turn>, c: real, i: nat, j: nat)
    requires i < |window| && j <= |window| && AllSimilar(kernel, window, c)
    ensures SemanticPairSum(kernel, window, i, j).1 == RowSum(Signatures(window), kernel.decay, true, i, j)
    ensures SemanticPairSum(kernel, window, i, j).0 == c * SemanticPairSum(kernel, window, i, j).1
  {
    hide Weight;
    if j > 0 {
      SemanticRowSums(kernel, window, c, i, j - 1);
      assert kernel.similarity(window[i], window[j - 1]) == c;
      hide AllSimilar;
      TimesSum(c, SemanticPairSum(kernel, window, i, j - 1).1, Weight(kernel.decay, i, j - 1));
    }
  }

  lemma {:induction false} SemanticSums(kernel: Kernel, window: seq<Turn>, c: real, i: nat)
    requires i <= |window| && AllSimilar(kernel, window, c)
    ensures SemanticSum(kernel, window, i).1 == PairSum(Signatures(window), kernel.decay, true, i)
    ensures SemanticSum(kernel, window, i).0 == c * SemanticSum(kernel, window, i).1
  {
    hide AllSimilar, SemanticPairSum, RowSum;
    if i > 0 {
      SemanticSums(kernel, window, c, i - 1);
      SemanticRowSums(kernel, window, c, i - 1, |window|);
      TimesSum(c, SemanticSum(kernel, window, i - 1).1, SemanticPairSum(kernel, window, i - 1, |window|).1);
    }
  }

  /** The score of a window is an average: where all pairs are equally similar, it is their similarity. */
  lemma ScoreIsAverage(kernel: Kernel, window: seq<Turn>, c: real)
    requires IsDecay(kernel.decay) && |window| == WINDOW && AllSimilar(kernel, window, c)
    ensures SemanticScore(kernel, window) == c
  {
    hide SemanticSum, PairSum, FullWeight;
    SemanticSums(kernel, window, c, WINDOW);
    FullWeightOfFive(Signatures(window), kernel.decay);
    PairIsNoticeable(kernel.decay);
    var total := SemanticSum(kernel, window, WINDOW).1;
    assert c * total / total == c;
  }

  /** Of equally similar turns, when similar by more than 7/9, the semantic scan keeps the first of each full
      five and drops the others; otherwise it drops none. */
  lemma {:induction false} SimilarTurnsAreThinned(kernel: Kernel, segment: seq<Turn>, c: real, index: nat, i: nat)
    requires IsDecay(kernel.decay) && AllSimilar(kernel, segment, c) && index <= |segment|
    ensures i in SemanticScan(kernel, segment, index) <==>
            c > 7.0 / 9.0 && index <= i && Repeated(i - index, |segment| - index)
    decreases |segment| - index
  {
    hide SemanticScore, Repeated;
    if index <= i {
      RepeatedAgain(i - index, |segment| - index);
    }
    if index + WINDOW <= |segment| {
      var window := segment[index..index + WINDOW];
      assert AllSimilar(kernel, window, c);
      ScoreIsAverage(kernel, window, c);
      if c >= SEMANTIC_THRESHOLD {
        SimilarTurnsAreThinned(kernel, segment, c, index + WINDOW, i);
      } else {
        SimilarTurnsAreThinned(kernel, segment, c, index + 1, i);
      }
    }
  }

  predicate PassesAt(kernel: Kernel, segment: seq<Turn>, j: nat) {
    j + 5 <= |segment| && SemanticScore(kernel, segment[j..j + 5]) >= 7.0 / 9.0
  }

  /** The semantic scan only drops turns that are similar to the one before by more than 7/9, from a window whose
      average similarity is at least that. */
  lemma {:induction false} OnlySimilarDropped(kernel: Kernel, segment: seq<Turn>, index: nat, i: nat)
    requires i in SemanticScan(kernel, segment, index)
    ensures index < i < |segment| && kernel.similarity(segment[i], segment[i - 1]) > 7.0 / 9.0
    ensures exists j :: index <= j < i < j + 5 && PassesAt(kernel, segment, j)
    decreases |segment| - index
  {
    hide SemanticScore;
    if SemanticScore(kernel, segment[index..index + WINDOW]) >= SEMANTIC_THRESHOLD {
      assert PassesAt(kernel, segment, index);
      if i in SemanticScan(kernel, segment, index + WINDOW) {
        OnlySimilarDropped(kernel, segment, index + WINDOW, i);
      }
    } else {
      OnlySimilarDropped(kernel, segment, index + 1, i);
    }
  }

  /** Similarities only matter where they are asked for, and then only in segments with some reasoning. */
  lemma WithoutReasoningStructural(kernel: Kernel, segment: seq<Turn>, semantic: bool)
    requires !semantic || forall t :: t in segment ==> !t.hasReasoning
    ensures PruneSegment(kernel, segment, semantic) == PruneSegment(kernel, segment, false)
  {
  }

  /******* The output is a subsequence of the input *******/

  ghost predicate IsSubsequence(s: seq<Turn>, t: seq<Turn>) {
    if s == [] then true
    else if t == [] then false
    else (s[|s| - 1] == t[|t| - 1] && IsSubsequence(s[..|s| - 1], t[..|t| - 1])) || IsSubsequence(s, t[..|t| - 1])
  }

  lemma SubsequenceKeepLast(s: seq<Turn>, t: seq<Turn>, x: Turn)
    requires IsSubsequence(s, t)
    ensures IsSubsequence(s + [x], t + [x]) && IsSubsequence(s, t + [x])
  {
    assert (s + [x])[..|s|] == s && (t + [x])[..|t|] == t;
  }

  lemma SubsequenceCases(u: seq<Turn>, v: seq<Turn>)
    requires IsSubsequence(u, v)
    ensures v == [] ==> u == []
    ensures v != [] ==>
              || IsSubsequence(u, v[..|v| - 1])
              || (u != [] && u[|u| - 1] == v[|v| - 1] && IsSubsequence(u[..|u| - 1], v[..|v| - 1]))
  {
  }

  lemma LastApart(t: seq<Turn>, v: seq<Turn>)
    requires v != []
    ensures t + v == (t + v[..|v| - 1]) + [v[|v| - 1]]
  {
  }

  lemma {:induction false} SubsequencesAppend(s: seq<Turn>, t: seq<Turn>, u: seq<Turn>, v: seq<Turn>)
    requires IsSubsequence(s, t) && IsSubsequence(u, v)
    ensures IsSubsequence(s + u, t + v)
    decreases |v|
  {
    hide IsSubsequence;
    SubsequenceCases(u, v);
    if v == [] {
      assert s + u == s && t + v == t;
    } else {
      var x := v[|v| - 1];
      LastApart(t, v);
      if IsSubsequence(u, v[..|v| - 1]) {
        SubsequencesAppend(s, t, u, v[..|v| - 1]);
        SubsequenceKeepLast(s + u, t + v[..|v| - 1], x);
      } else {
        SubsequencesAppend(s, t, u[..|u| - 1], v[..|v| - 1]);
        SubsequenceKeepLast(s + u[..|u| - 1], t + v[..|v| - 1], x);
        LastApart(s, u);
      }
    }
  }

  lemma NothingKept(segment: seq<Turn>, pruned: set<nat>)
    ensures IsSubsequence(KeepUpTo(segment, pruned, 0), segment[..0])
  {
  }

  lemma KeepOneMore(segment: seq<Turn>, pruned: set<nat>, n: nat)
    requires 0 < n <= |segment|
    ensures var before := KeepUpTo(segment, pruned, n - 1);
            KeepUpTo(segment, pruned, n) == if n - 1 in pruned then before else before + [segment[n - 1]]
  {
  }

  lemma TakeOneMore(segment: seq<Turn>, n: nat)
    requires 0 < n <= |segment|
    ensures segment[..n] == segment[..n - 1] + [segment[n - 1]]
  {
  }

  lemma {:induction false} KeepIsSubsequence(segment: seq<Turn>, pruned: set<nat>, n: nat)
    requires n <= |segment|
    ensures IsSubsequence(KeepUpTo(segment, pruned, n), segment[..n])
  {
    hide IsSubsequence, KeepUpTo;
    if n == 0 {
      NothingKept(segment, pruned);
    } else {
      KeepIsSubsequence(segment, pruned, n - 1);
      KeepOneMore(segment, pruned, n);
      TakeOneMore(segment, n);
      var before, taken, last := KeepUpTo(segment, pruned, n - 1), segment[..n - 1], segment[n - 1];
      SubsequenceKeepLast(before, taken, last);
    }
  }

  lemma {:induction false} PruneAllIsSubsequence(kernel: Kernel, segments: seq<seq<Turn>>, semantic: bool)
    ensures IsSubsequence(PruneAll(kernel, segments, semantic), Flatten(segments))
  {
    if segments == [] {
    } else {
      var init, last := segments[..|segments| - 1], segments[|segments| - 1];
      PruneAllIsSubsequence(kernel, init, semantic);
      KeepIsSubsequence(last, PrunedIn(kernel, last, semantic), |last|);
      assert last[..|last|] == last;
      SubsequencesAppend(PruneAll(kernel, init, semantic), Flatten(init), PruneSegment(kernel, last, semantic), last);
    }
  }

  lemma {:induction false} SubsequenceOfItself(s: seq<Turn>)
    ensures IsSubsequence(s, s)
  {
    if s == [] {
    } else {
      SubsequenceOfItself(s[..|s| - 1]);
    }
  }

  /** Pruning only drops turns; it neither invents nor reorders any, whatever the similarities are. */
  lemma PrunedIsSubsequence(kernel: Kernel, turns: seq<Turn>, semantic: bool)
    ensures IsSubsequence(Pruned(kernel, turns, semantic), turns)
  {
    if |turns| <= WINDOW {
      SubsequenceOfItself(turns);
    } else {
      PruneAllIsSubsequence(kernel, Segments(turns), semantic);
      SegmentsAreComplete(turns);
    }
  }

  /******* No signature is lost *******/

  lemma {:induction false} KeptIsIn(segment: seq<Turn>, pruned: set<nat>, n: nat, j: nat)
    requires j < n <= |segment| && j !in pruned
    ensures segment[j] in KeepUpTo(segment, pruned, n)
  {
    if j < n - 1 {
      KeptIsIn(segment, pruned, n - 1, j);
    }
  }

  lemma {:induction false} SegmentInOutput(kernel: Kernel, segments: seq<seq<Turn>>, semantic: bool, k: nat, t: Turn)
    requires k < |segments| && t in PruneSegment(kernel, segments[k], semantic)
    ensures t in PruneAll(kernel, segments, semantic)
  {
    if k < |segments| - 1 {
      SegmentInOutput(kernel, segments[..|segments| - 1], semantic, k, t);
    }
  }

  lemma {:induction false} TurnInSegment(parts: seq<seq<Turn>>, t: Turn) returns (k: nat)
    requires t in Flatten(parts)
    ensures k < |parts| && t in parts[k]
  {
    var n := |parts| - 1;
    if t in parts[n] {
      k := n;
    } else {
      k := TurnInSegment(parts[..n], t);
    }
  }

  lemma KeptTwin(kernel: Kernel, segment: seq<Turn>, i: nat) returns (j: nat)
    requires i < |segment|
    ensures j < |segment| && j !in PrunedIn(kernel, segment, false) && segment[j].signature == segment[i].signature
  {
    if |segment| <= WINDOW {
      j := i;
    } else {
      var s := Signatures(segment);
      NoSignatureLost(s, i);
      j :| 0 <= j <= i && j !in Scan(s, 0) && s[j] == s[i];
    }
  }

  /** With the structural kernel every signature of the trajectory occurs in the output. */
  lemma EverySignatureKept(kernel: Kernel, turns: seq<Turn>, t: Turn)
    requires t in turns
    ensures exists u :: u in Pruned(kernel, turns, false) && u.signature == t.signature
  {
    if |turns| <= WINDOW {
      assert t in Pruned(kernel, turns, false);
    } else {
      SegmentsAreComplete(turns);
      var k := TurnInSegment(Segments(turns), t);
      var segment := Segments(turns)[k];
      var i :| 0 <= i < |segment| && segment[i] == t;
      var pruned := PrunedIn(kernel, segment, false);
      var j := KeptTwin(kernel, segment, i);
      KeptIsIn(segment, pruned, |segment|, j);
      SegmentInOutput(kernel, Segments(turns), false, k, segment[j]);
    }
  }

  /******* The code *******/

  method CalculateWindowStrSemantic(kernel: Kernel, window: seq<Turn>) returns (score: real)
    ensures score == SemanticScore(kernel, window)
  {
    hide Distance;
    if |window| < 2 {
      return 0.0;
    }
    var numerator, denominator := 0.0, 0.0;
    for i := 0 to |window|
      invariant (numerator, denominator) == SemanticSum(kernel, window, i)
    {
      ghost var n0, d0 := numerator, denominator;
      for j := 0 to |window|
        invariant numerator == n0 + SemanticPairSum(kernel, window, i, j).0
        invariant denominator == d0 + SemanticPairSum(kernel, window, i, j).1
      {
        if i == j {
          continue;
        }
        var weight := Weight(kernel.decay, i, j);
        numerator := numerator + kernel.similarity(window[i], window[j]) * weight;
        denominator := denominator + weight;
      }
    }
    return if denominator > 0.0 then numerator / denominator else 0.0;
  }

  method SimilarInWindow(kernel: Kernel, segment: seq<Turn>, index: nat) returns (repeated: set<nat>)
    requires index + WINDOW <= |segment|
    ensures repeated == set i | index < i < index + WINDOW && Repeats(kernel, segment, i)
  {
    repeated := {};
    for k := 1 to WINDOW
      invariant repeated == set i | index < i < index + k && Repeats(kernel, segment, i)
    {
      assert Repeats(kernel, segment, index + k) <==>
               kernel.similarity(segment[index + k], segment[index + k - 1]) > SEMANTIC_THRESHOLD;
      if kernel.similarity(segment[index + k], segment[index + k - 1]) > SEMANTIC_THRESHOLD {
        repeated := repeated + {index + k};
      }
    }
  }

  method SemanticScanSegment(kernel: Kernel, segment: seq<Turn>) returns (pruned: set<nat>)
    ensures pruned == SemanticScan(kernel, segment, 0)
  {
    hide SemanticScore, Repeats;
    pruned := {};
    var index := 0;
    while index + WINDOW <= |segment|
      invariant 0 <= index <= |segment|
      invariant pruned + SemanticScan(kernel, segment, index) == SemanticScan(kernel, segment, 0)
    {
      var score := CalculateWindowStrSemantic(kernel, segment[index..index + WINDOW]);
      if score >= SEMANTIC_THRESHOLD {
        var repeated := SimilarInWindow(kernel, segment, index);
        pruned := pruned + repeated;
        index := index + WINDOW;
      } else {
        index := index + 1;
      }
    }
  }

  method PruneOneSegment(kernel: Kernel, segment: seq<Turn>, semantic: bool) returns (kept: seq<Turn>)
    requires IsDecay(kernel.decay)
    ensures kept == PruneSegment(kernel, segment, semantic)
  {
    var pruned: set<nat> := {};
    if |segment| > WINDOW {
      if UsesSemantics(segment, semantic) {
        pruned := SemanticScanSegment(kernel, segment);
      } else {
        pruned := StructuralScan(Signatures(segment), kernel.decay);
      }
    }
    kept := [];
    for i := 0 to |segment|
      invariant kept == KeepUpTo(segment, pruned, i)
    {
      if i !in pruned {
        kept := kept + [segment[i]];
      }
    }
  }

  /** The signal of turn `j` when the first `i` turns have been dealt with. */
  function SignalSoFar(turns: seq<Turn>, i: nat, j: nat, before: Signal): Signal {
    if j < i && CutsAt(turns, j) then CognitiveRestart
    else if j + 1 < i && CutsAt(turns, j + 1) then PreRestart
    else before
  }

  /** Right after a cut the open segment has a single turn, so there is no cut at the next one. */
  lemma NoCutAfterCut(turns: seq<Turn>, i: nat)
    requires CutsAt(turns, i)
    ensures !CutsAt(turns, i + 1)
  {
    assert turns[..i + 1][..i] == turns[..i];
    assert CutUp(turns[..i + 1]).current == [turns[i]];
  }

  lemma CutStep(turns: seq<Turn>, i: nat)
    requires i < |turns|
    ensures var cut := CutUp(turns[..i]);
            && (CutsAt(turns, i) <==> turns[i].restart && |cut.current| >= WINDOW)
            && CutUp(turns[..i + 1]) ==
               if CutsAt(turns, i) then Cut(cut.closed + [cut.current], [turns[i]])
               else Cut(cut.closed, cut.current + [turns[i]])
  {
    assert turns[..i + 1][..i] == turns[..i];
  }

  lemma {:induction false} OpenSinceCut(turns: seq<Turn>, i: nat, j: nat)
    requires CutsAt(turns, i) && i < j <= |turns|
    ensures |CutUp(turns[..j]).current| <= j - i
    decreases j
  {
    hide ClosesBefore, CutsAt;
    CutStep(turns, j - 1);
    if j - 1 > i {
      OpenSinceCut(turns, i, j - 1);
    }
  }

  /** Every segment but the last has at least five turns: cuts lie at least that far from the start and from
      each other. */
  lemma CutsFarApart(turns: seq<Turn>, i: nat, j: nat)
    requires CutsAt(turns, i) && CutsAt(turns, j) && i < j
    ensures WINDOW <= i && i + WINDOW <= j
  {
    CutIsBehind(turns, i);
    OpenSinceCut(turns, i, j);
  }

  /** Since when the open segment is open: from the start or the last cut on. */
  lemma {:induction false} OpenSegment(turns: seq<Turn>, i: nat)
    requires i <= |turns|
    ensures var open := |CutUp(turns[..i]).current|;
            && open <= i && (i > 0 ==> open > 0) && (open == i || CutsAt(turns, i - open))
            && forall j :: i - open < j < i ==> !CutsAt(turns, j)
  {
    if i == 0 {
      assert turns[..0] == [];
    } else {
      OpenSegment(turns, i - 1);
      CutStep(turns, i - 1);
      hide CutUp, CutsAt, ClosesBefore;
    }
  }

  /** A restart is a cut exactly when at least five turns lie before it and none of the last four was a cut. */
  lemma CutsAtIff(turns: seq<Turn>, i: nat)
    requires i < |turns|
    ensures CutsAt(turns, i) <==>
            turns[i].restart && i >= 5 && forall j :: i - 5 < j < i ==> !CutsAt(turns, j)
  {
    OpenSegment(turns, i);
    CutStep(turns, i);
    hide CutUp, CutsAt, ClosesBefore;
  }

  /** Dealing with turn `i` sets two signals when it is a cut, and none otherwise. */
  lemma SignalStep(turns: seq<Turn>, i: nat, j: nat, before: Signal)
    requires i < |turns| && j < |turns|
    ensures SignalSoFar(turns, i + 1, j, before) ==
            if CutsAt(turns, i) && j == i then CognitiveRestart
            else if CutsAt(turns, i) && j + 1 == i then PreRestart
            else SignalSoFar(turns, i, j, before)
    ensures SignalSoFar(turns, 0, j, before) == before
    ensures SignalSoFar(turns, |turns|, j, before) == SignalAfter(turns, j, before)
  {
    if CutsAt(turns, j) {
      NoCutAfterCut(turns, j);
    }
    hide CutUp, ClosesBefore;
  }

  lemma NothingCut(turns: seq<Turn>)
    ensures CutUp(turns[..0]) == Cut([], [])
  {
  }

  /** Cuts the trajectory and marks the turns around each cut. */
  method CutTrajectory(turns: seq<Turn>) returns (segments: seq<seq<Turn>>)
    requires Distinct(turns)
    modifies turns
    ensures segments == Segments(turns)
    ensures forall i :: 0 <= i < |turns| ==> turns[i].signal == SignalAfter(turns, i, old(turns[i].signal))
  {
    hide CutUp, CutsAt, SignalSoFar, SignalAfter;
    segments := [];
    var current: seq<Turn> := [];
    NothingCut(turns);
    forall j | 0 <= j < |turns|
      ensures turns[j].signal == SignalSoFar(turns, 0, j, old(turns[j].signal))
    {
      SignalStep(turns, 0, j, old(turns[j].signal));
    }
    for i := 0 to |turns|
      invariant CutUp(turns[..i]) == Cut(segments, current)
      invariant current != [] ==> i > 0 && current[|current| - 1] == turns[i - 1]
      invariant forall j :: 0 <= j < |turns| ==> turns[j].signal == SignalSoFar(turns, i, j, old(turns[j].signal))
    {
      CutStep(turns, i);
      if turns[i].restart && |current| >= WINDOW {
        current[|current| - 1].signal := PreRestart;
        turns[i].signal := CognitiveRestart;
        segments := segments + [current];
        current := [turns[i]];
      } else {
        current := current + [turns[i]];
      }
      forall j | 0 <= j < |turns|
        ensures turns[j].signal == SignalSoFar(turns, i + 1, j, old(turns[j].signal))
      {
        SignalStep(turns, i, j, old(turns[j].signal));
      }
    }
    assert turns[..|turns|] == turns;
    forall j | 0 <= j < |turns|
      ensures turns[j].signal == SignalAfter(turns, j, old(turns[j].signal))
    {
      SignalStep(turns, 0, j, old(turns[j].signal));
    }
    if current != [] {
      segments := segments + [current];
    }
  }

  lemma SignalSays(turns: seq<Turn>, i: nat, before: Signal)
    ensures var signal := SignalAfter(turns, i, before);
            && (CutsAt(turns, i) ==> signal == CognitiveRestart)
            && (CutsAt(turns, i + 1) ==> signal == PreRestart)
            && (!CutsAt(turns, i) && !CutsAt(turns, i + 1) ==> signal == before)
  {
    if CutsAt(turns, i) {
      NoCutAfterCut(turns, i);
    }
    hide CutUp, ClosesBefore;
  }

  method PruneSingleTrajectory(kernel: Kernel, turns: seq<Turn>, semantic: bool) returns (output: seq<Turn>)
    requires IsDecay(kernel.decay) && Distinct(turns)
    modifies turns
    ensures output == Pruned(kernel, turns, semantic)
    ensures forall i :: 0 <= i < |turns| ==>
              turns[i].signal == if |turns| <= WINDOW then old(turns[i].signal)
                else SignalAfter(turns, i, old(turns[i].signal))
    ensures |turns| > 5 ==> forall i :: 0 <= i < |turns| ==>
              && (CutsAt(turns, i) ==> turns[i].signal == CognitiveRestart)
              && (CutsAt(turns, i + 1) ==> turns[i].signal == PreRestart)
              && (!CutsAt(turns, i) && !CutsAt(turns, i + 1) ==> turns[i].signal == old(turns[i].signal))
  {
    hide Segments, PruneSegment, SignalAfter, CutsAt;
    if |turns| <= WINDOW {
      return turns;
    }
    var segments := CutTrajectory(turns);
    output := [];
    for i := 0 to |segments|
      invariant output == PruneAll(kernel, segments[..i], semantic)
      invariant forall j :: 0 <= j < |turns| ==> turns[j].signal == SignalAfter(turns, j, old(turns[j].signal))
    {
      assert segments[..i + 1][..i] == segments[..i];
      var kept := PruneOneSegment(kernel, segments[i], semantic);
      output := output + kept;
    }
    assert segments[..|segments|] == segments;
    forall i | 0 <= i < |turns|
      ensures CutsAt(turns, i) ==> turns[i].signal == CognitiveRestart
      ensures CutsAt(turns, i + 1) ==> turns[i].signal == PreRestart
      ensures !CutsAt(turns, i) && !CutsAt(turns, i + 1) ==> turns[i].signal == old(turns[i].signal)
    {
      SignalSays(turns, i, old(turns[i].signal));
    }
  }
}
