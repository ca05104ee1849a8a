/**
  The evidence chain of the clinic: nodes are ordered by a depth-first search and run in that order, and
  the report of a node depends on those of its upstreams.
 */
module EvidenceChains {
  /******* Nodes, gates and reports *******/

  type Payload(!new)

  type Context = map<string, Payload>

  /** What calling a gate's check did: gave a truth value, or raised an exception. */
  datatype GateOutcome = Returned(verdict: bool) | Raised

  datatype Gate = Gate(name: string, check: Context -> GateOutcome, description: string)

  datatype EvidenceNode = EvidenceNode(
    phaseId: string,
    inputs: seq<string>,
    outputs: seq<string>,
    gates: seq<Gate>,
    decision: string,
    nodeId: string,
    upstream: seq<string>,
    inputHashes: map<string, string>)
  {
    function Key(): string {
      if nodeId != "" then nodeId else phaseId
    }
  }

  datatype Report = Report(
    phase: string,
    nodeId: string,
    decision: string,
    inputs: seq<string>,
    outputs: seq<string>,
    gates: map<string, bool>,
    passed: bool,
    blockingFailures: set<string>)

  /** The files on disk: the digest of every existing file, and how a path is normalised. */
  datatype FileSystem = FileSystem(digests: map<string, string>, asPosix: string -> string)

  /** The file system as it is when the node of a key is run; nodes may find different ones. */
  type Disk = string -> FileSystem

  datatype OrderError = CycleAt(key: string) | UnknownUpstream(key: string)

  datatype OrderResult = Ordered(nodes: seq<EvidenceNode>) | Failed(error: OrderError)

  /** Whether a visit completed or raised; `:-` lets the error propagate. */
  datatype VisitOutcome = Visited | Interrupted(error: OrderError)
  {
    predicate IsFailure() { Interrupted? }

    function PropagateFailure(): OrderResult
      requires Interrupted?
    {
      Failed(error)
    }
  }

  datatype RunResult = Reports(reports: map<string, Report>) | NoOrder(error: OrderError)

  /******* The graph *******/

  ghost predicate IsKey(nodes: seq<EvidenceNode>, key: string) {
    exists n :: n in nodes && n.Key() == key
  }

  ghost predicate DistinctKeys(nodes: seq<EvidenceNode>) {
    forall i, j :: 0 <= i < j < |nodes| ==> nodes[i].Key() != nodes[j].Key()
  }

  ghost predicate AllUpstreamsKnown(nodes: seq<EvidenceNode>) {
    forall n, u :: n in nodes && u in n.upstream ==> IsKey(nodes, u)
  }

  /** `from` names `to` among its upstreams. */
  ghost predicate Edge(nodes: seq<EvidenceNode>, from: string, to: string) {
    exists n :: n in nodes && n.Key() == from && to in n.upstream
  }

  ghost predicate IsPath(nodes: seq<EvidenceNode>, path: seq<string>) {
    forall i :: 0 <= i < |path| - 1 ==> Edge(nodes, path[i], path[i + 1])
  }

  /** `path` leads from `from` to `to` over at least one edge. */
  ghost predicate PathBetween(nodes: seq<EvidenceNode>, from: string, to: string, path: seq<string>) {
    |path| >= 2 && path[0] == from && path[|path| - 1] == to && IsPath(nodes, path)
  }

  ghost predicate IsAncestor(nodes: seq<EvidenceNode>, node: string, ancestor: string) {
    exists path :: PathBetween(nodes, node, ancestor, path)
  }

  ghost predicate HasCycle(nodes: seq<EvidenceNode>) {
    exists key :: IsAncestor(nodes, key, key)
  }

  /** Every element's upstreams are the keys of elements before it. */
  ghost predicate UpstreamFirst(order: seq<EvidenceNode>) {
    forall i, u :: 0 <= i < |order| && u in order[i].upstream ==> IsKey(order[..i], u)
  }

  ghost predicate IsTopologicalOrder(nodes: seq<EvidenceNode>, order: seq<EvidenceNode>) {
    && (forall n :: n in order ==> n in nodes)
    && (forall n :: n in nodes ==> IsKey(order, n.Key()))
    && DistinctKeys(order)
    && UpstreamFirst(order)
  }

  ghost function KeySet(nodes: seq<EvidenceNode>): set<string> {
    set n <- nodes :: n.Key()
  }

  /** The dictionary from keys to nodes: the last node with a key wins. */
  function IndexByKey(nodes: seq<EvidenceNode>): (index: map<string, EvidenceNode>)
    ensures forall k :: k in index <==> IsKey(nodes, k)
    ensures forall k :: k in index ==> index[k] in nodes && index[k].Key() == k
  {
    if nodes == [] then map[]
    else
      var last := |nodes| - 1;
      assert nodes == nodes[..last] + [nodes[last]];
      IndexByKey(nodes[..last])[nodes[last].Key() := nodes[last]]
  }

  /******* Consequences of having a topological order *******/

  /** With distinct keys, the one node of a key is what the order holds for that key. */
  lemma SameKeySameNode(nodes: seq<EvidenceNode>, a: EvidenceNode, b: EvidenceNode)
    requires DistinctKeys(nodes) && a in nodes && b in nodes && a.Key() == b.Key()
    ensures a == b
  {
    var i :| 0 <= i < |nodes| && nodes[i] == a;
    var j :| 0 <= j < |nodes| && nodes[j] == b;
    assert i == j;
  }

  lemma AtMostOnce(nodes: seq<EvidenceNode>, n: EvidenceNode)
    requires DistinctKeys(nodes)
    ensures multiset(nodes)[n] == if n in nodes then 1 else 0
  {
    if nodes != [] {
      var last := |nodes| - 1;
      assert nodes == nodes[..last] + [nodes[last]];
      AtMostOnce(nodes[..last], n);
      if n in nodes[..last] {
        var i :| 0 <= i < last && nodes[..last][i] == n;
        assert nodes[i].Key() != nodes[last].Key();
      }
    }
  }

  /** Every node of the graph occurs in a topological order exactly once. */
  lemma OrderIsPermutation(nodes: seq<EvidenceNode>, order: seq<EvidenceNode>)
    requires DistinctKeys(nodes) && IsTopologicalOrder(nodes, order)
    ensures multiset(order) == multiset(nodes)
    ensures |order| == |nodes|
  {
    forall n
      ensures multiset(order)[n] == multiset(nodes)[n]
    {
      AtMostOnce(nodes, n);
      AtMostOnce(order, n);
      if n in nodes {
        var m :| m in order && m.Key() == n.Key();
        SameKeySameNode(nodes, n, m);
      }
    }
    assert |multiset(order)| == |order| && |multiset(nodes)| == |nodes|;
  }

  ghost function Position(order: seq<EvidenceNode>, key: string): (i: nat)
    requires IsKey(order, key)
    ensures i < |order| && order[i].Key() == key
  {
    var n :| n in order && n.Key() == key;
    var i :| 0 <= i < |order| && order[i] == n;
    i
  }

  /** An edge leads to a known node that stands strictly earlier in the order. */
  lemma EdgeGoesBack(nodes: seq<EvidenceNode>, order: seq<EvidenceNode>, from: string, to: string)
    requires DistinctKeys(nodes) && IsTopologicalOrder(nodes, order) && Edge(nodes, from, to)
    ensures IsKey(order, from) && IsKey(order, to)
    ensures Position(order, to) < Position(order, from)
  {
    var n :| n in nodes && n.Key() == from && to in n.upstream;
    var i := Position(order, from);
    SameKeySameNode(nodes, n, order[i]);
    assert IsKey(order[..i], to);
    var m :| m in order[..i] && m.Key() == to;
    var j :| 0 <= j < i && order[..i][j] == m;
    assert order[j] in order;
    assert Position(order, to) == j;
  }

  lemma PathTail(nodes: seq<EvidenceNode>, path: seq<string>)
    requires IsPath(nodes, path) && |path| >= 1
    ensures IsPath(nodes, path[1..])
  {
    forall i | 0 <= i < |path[1..]| - 1
      ensures Edge(nodes, path[1..][i], path[1..][i + 1])
    {
      assert Edge(nodes, path[i + 1], path[i + 1 + 1]);
    }
  }

  lemma {:induction false} PathGoesBack(
    nodes: seq<EvidenceNode>, order: seq<EvidenceNode>, from: string, to: string, path: seq<string>)
    requires DistinctKeys(nodes) && IsTopologicalOrder(nodes, order) && PathBetween(nodes, from, to, path)
    ensures IsKey(order, from) && IsKey(order, to)
    ensures Position(order, to) < Position(order, from)
    decreases |path|
  {
    assert Edge(nodes, path[0], path[0 + 1]);
    EdgeGoesBack(nodes, order, path[0], path[1]);
    if |path| > 2 {
      PathTail(nodes, path);
      PathGoesBack(nodes, order, path[1], to, path[1..]);
    }
  }

  /** A graph that can be ordered has no cycle and no dangling upstream. */
  lemma OrderedMeansAcyclic(nodes: seq<EvidenceNode>, order: seq<EvidenceNode>)
    requires DistinctKeys(nodes) && IsTopologicalOrder(nodes, order)
    ensures !HasCycle(nodes) && AllUpstreamsKnown(nodes)
  {
    if HasCycle(nodes) {
      var key :| IsAncestor(nodes, key, key);
      var path :| PathBetween(nodes, key, key, path);
      PathGoesBack(nodes, order, key, key, path);
    }
    forall n, u | n in nodes && u in n.upstream
      ensures IsKey(nodes, u)
    {
      assert Edge(nodes, n.Key(), u);
      EdgeGoesBack(nodes, order, n.Key(), u);
      assert order[Position(order, u)] in order;
    }
  }

  /******* Depth-first search *******/

  /** The variables that the nested function `visit` updates. */
  class Visitor {
    const byKey: map<string, EvidenceNode>
    ghost const nodes: seq<EvidenceNode>
    var ordered: seq<EvidenceNode>
    var temporary: set<string>
    var permanent: set<string>

    ghost predicate Valid()
      reads this
    {
      && (forall k :: k in byKey <==> IsKey(nodes, k))
      && (forall k :: k in byKey ==> byKey[k] in nodes && byKey[k].Key() == k)
      && (forall n :: n in ordered ==> n in nodes)
      && DistinctKeys(ordered)
      && UpstreamFirst(ordered)
      && (forall k :: k in permanent <==> IsKey(ordered, k))
      && temporary !! permanent
      && temporary <= KeySet(nodes)
    }

    constructor (nodes: seq<EvidenceNode>, byKey: map<string, EvidenceNode>)
      requires byKey == IndexByKey(nodes)
      ensures Valid() && this.nodes == nodes && this.byKey == byKey
      ensures ordered == [] && temporary == {} && permanent == {}
    {
      hide IndexByKey, KeySet;
      this.nodes, this.byKey := nodes, byKey;
      ordered, temporary, permanent := [], {}, {};
    }

    /** The keys in `temporary`, in the order in which the search entered them: a path that the
        node about to be visited extends. */
    ghost predicate IsStack(stack: seq<string>)
      reads this
    {
      && IsPath(nodes, stack)
      && (forall k :: k in temporary <==> k in stack)
    }

    method Visit(node: EvidenceNode, ghost stack: seq<string>) returns (outcome: VisitOutcome)
      requires Valid() && node in nodes && IsStack(stack)
      requires stack == [] || Edge(nodes, stack[|stack| - 1], node.Key())
      modifies this
      ensures outcome.Visited? ==> Valid() && node.Key() in permanent
      ensures outcome.Visited? ==> temporary == old(temporary) && old(permanent) <= permanent
      ensures outcome.Visited? ==> old(ordered) <= ordered
      ensures outcome.Interrupted? && outcome.error.CycleAt? ==>
                IsAncestor(nodes, outcome.error.key, outcome.error.key)
      ensures outcome.Interrupted? && outcome.error.UnknownUpstream? ==>
                !IsKey(nodes, outcome.error.key) && exists n :: n in nodes && outcome.error.key in n.upstream
      decreases KeySet(nodes) - temporary
    {
      if node.Key() in permanent {
        return Visited;
      }
      if node.Key() in temporary {
        ClosedStack(stack, node.Key());
        return Interrupted(CycleAt(node.Key()));
      }
      temporary := temporary + {node.Key()};
      ghost var inner := stack + [node.Key()];
      assert IsStack(inner) by { ExtendPath(stack, node.Key()); }
      var i := 0;
      while i < |node.upstream|
        invariant 0 <= i <= |node.upstream|
        invariant Valid() && IsStack(inner)
        invariant temporary == old(temporary) + {node.Key()}
        invariant old(permanent) <= permanent && old(ordered) <= ordered
        invariant forall j :: 0 <= j < i ==> node.upstream[j] in permanent
      {
        var upstreamKey := node.upstream[i];
        if upstreamKey !in byKey {
          return Interrupted(UnknownUpstream(upstreamKey));
        }
        assert Edge(nodes, node.Key(), upstreamKey);
        var visited := Visit(byKey[upstreamKey], inner);
        if visited.Interrupted? {
          return visited;
        }
        i := i + 1;
      }
      temporary := temporary - {node.Key()};
      permanent := permanent + {node.Key()};
      AppendNode(node);
      ordered := ordered + [node];
      return Visited;
    }

    lemma AppendNode(node: EvidenceNode)
      requires DistinctKeys(ordered) && UpstreamFirst(ordered)
      requires !IsKey(ordered, node.Key())
      requires forall u :: u in node.upstream ==> IsKey(ordered, u)
      ensures DistinctKeys(ordered + [node]) && UpstreamFirst(ordered + [node])
      ensures forall k :: IsKey(ordered + [node], k) <==> IsKey(ordered, k) || k == node.Key()
    {
      var longer := ordered + [node];
      forall i, u | 0 <= i < |longer| && u in longer[i].upstream
        ensures IsKey(longer[..i], u)
      {
        assert longer[..i] == ordered[..i];
        if i == |ordered| {
          assert ordered[..i] == ordered;
        }
      }
      assert node in longer;
      forall k | IsKey(ordered, k)
        ensures IsKey(longer, k)
      {
        var n :| n in ordered && n.Key() == k;
        assert n in longer;
      }
    }

    lemma ExtendPath(stack: seq<string>, key: string)
      requires IsPath(nodes, stack)
      requires stack == [] || Edge(nodes, stack[|stack| - 1], key)
      ensures IsPath(nodes, stack + [key])
    {
    }

    /** Meeting a key that is on the stack closes a cycle through that key. */
    lemma ClosedStack(stack: seq<string>, key: string)
      requires IsPath(nodes, stack) && key in stack
      requires Edge(nodes, stack[|stack| - 1], key)
      ensures IsAncestor(nodes, key, key)
    {
      var j :| 0 <= j < |stack| && stack[j] == key;
      var cycle := stack[j..] + [key];
      forall i | 0 <= i < |cycle| - 1
        ensures Edge(nodes, cycle[i], cycle[i + 1])
      {
        if i < |cycle| - 2 {
          assert Edge(nodes, stack[j + i], stack[j + i + 1]);
        }
      }
      assert PathBetween(nodes, key, key, cycle);
    }
  }

  /******* Reports *******/

  predicate GatePasses(gate: Gate, context: Context) {
    gate.check(context) == Returned(true)
  }

  /** The dictionary of gate results: the last gate with a name wins. */
  function GateResults(gates: seq<Gate>, context: Context): (results: map<string, bool>)
    ensures forall name :: name in results <==> exists g :: g in gates && g.name == name
  {
    if gates == [] then map[]
    else
      var last := |gates| - 1;
      assert gates == gates[..last] + [gates[last]];
      GateResults(gates[..last], context)[gates[last].name := GatePasses(gates[last], context)]
  }

  lemma NoGates(context: Context)
    ensures GateResults([], context) == map[]
  {
  }

  lemma OneMoreGate(gates: seq<Gate>, i: nat, context: Context)
    requires i < |gates|
    ensures GateResults(gates[..i + 1], context) ==
            GateResults(gates[..i], context)[gates[i].name := GatePasses(gates[i], context)]
  {
    assert gates[..i + 1][..i] == gates[..i];
  }

  predicate AllPass(results: map<string, bool>) {
    forall name :: name in results ==> results[name]
  }

  /** The results a report lists: a node with inputs or upstreams gets an entry "upstream", which a
      gate of that name overwrites. */
  function WithUpstreamEntry(node: EvidenceNode, own: map<string, bool>, upstreamPassed: bool): map<string, bool> {
    if node.inputs != [] || node.upstream != [] then map["upstream" := upstreamPassed] + own else own
  }

  lemma UpstreamEntryDecides(node: EvidenceNode, own: map<string, bool>, upstreamPassed: bool)
    requires node.inputs == [] && node.upstream == [] ==> upstreamPassed
    ensures AllPass(WithUpstreamEntry(node, own, upstreamPassed)) <==>
              AllPass(own) && ("upstream" in own || upstreamPassed)
  {
    var all := WithUpstreamEntry(node, own, upstreamPassed);
    assert forall name :: name in own ==> name in all && all[name] == own[name];
    assert "upstream" !in own && "upstream" in all ==> all["upstream"] == upstreamPassed;
  }

  ghost predicate HasUpstreamGate(node: EvidenceNode) {
    exists g :: g in node.gates && g.name == "upstream"
  }

  /** The digest recorded for an input; an absent or empty digest means there is nothing to compare. */
  function ExpectedDigest(node: EvidenceNode, rawPath: string, fs: FileSystem): string {
    if rawPath in node.inputHashes && node.inputHashes[rawPath] != "" then node.inputHashes[rawPath]
    else if fs.asPosix(rawPath) in node.inputHashes then node.inputHashes[fs.asPosix(rawPath)]
    else ""
  }

  predicate InputIntact(node: EvidenceNode, rawPath: string, fs: FileSystem) {
    && rawPath in fs.digests
    && (ExpectedDigest(node, rawPath, fs) != "" ==> fs.digests[rawPath] == ExpectedDigest(node, rawPath, fs))
  }

  predicate InputsIntact(node: EvidenceNode, fs: FileSystem) {
    forall p :: p in node.inputs ==> InputIntact(node, p, fs)
  }

  /** What a node's own gates and inputs say, without looking at other nodes. */
  predicate LocallySound(node: EvidenceNode, context: Context, fs: FileSystem) {
    AllPass(GateResults(node.gates, context)) && InputsIntact(node, fs)
  }

  predicate UpstreamsPassed(node: EvidenceNode, reports: map<string, Report>) {
    forall u :: u in node.upstream && u in reports ==> reports[u].passed
  }

  /** When the report of a node passes, given the reports known when it runs. */
  ghost predicate NodePasses(node: EvidenceNode, context: Context, fs: FileSystem, reports: map<string, Report>) {
    && AllPass(GateResults(node.gates, context))
    && (HasUpstreamGate(node) || (InputsIntact(node, fs) && UpstreamsPassed(node, reports)))
  }

  function ContextFor(contexts: map<string, Context>, key: string): Context {
    if key in contexts then contexts[key] else map[]
  }

  ghost predicate ReportFits(
    node: EvidenceNode, contexts: map<string, Context>, disk: Disk, reports: map<string, Report>)
  {
    && node.Key() in reports
    && (reports[node.Key()].passed <==> NodePasses(node, ContextFor(contexts, node.Key()), disk(node.Key()), reports))
  }

  /** The reports satisfy, at every node of the order, the equation by which failures propagate. */
  ghost predicate Propagated(
    order: seq<EvidenceNode>, contexts: map<string, Context>, disk: Disk, reports: map<string, Report>)
  {
    && (forall k :: k in reports <==> IsKey(order, k))
    && (forall n :: n in order ==> ReportFits(n, contexts, disk, reports))
  }

  /******* What a pass means, told from files, hashes and gates *******/

  /** The file is missing, or differs from a recorded digest: the one recorded for the path as it is written
      or, if that is absent or empty, for the normalised path. */
  ghost predicate InputBroken(node: EvidenceNode, p: string, fs: FileSystem) {
    var recorded := p in node.inputHashes && node.inputHashes[p] != "";
    || p !in fs.digests
    || (recorded && fs.digests[p] != node.inputHashes[p])
    || (!recorded && fs.asPosix(p) in node.inputHashes && node.inputHashes[fs.asPosix(p)] != ""
        && fs.digests[p] != node.inputHashes[fs.asPosix(p)])
  }

  ghost predicate IsLastOfName(gates: seq<Gate>, i: nat)
    requires i < |gates|
  {
    forall j :: i < j < |gates| ==> gates[j].name != gates[i].name
  }

  /** Of the gates of each name the last one is called without raising and returns true. */
  ghost predicate GatesHold(gates: seq<Gate>, context: Context) {
    forall i :: 0 <= i < |gates| && IsLastOfName(gates, i) ==> gates[i].check(context) == Returned(true)
  }

  /** When the node should pass, given which of its upstreams did. */
  ghost predicate Deserves(
    node: EvidenceNode, contexts: map<string, Context>, fs: FileSystem, reports: map<string, Report>)
  {
    && GatesHold(node.gates, if node.Key() in contexts then contexts[node.Key()] else map[])
    && ((exists g :: g in node.gates && g.name == "upstream")
        || (&& (forall p :: p in node.inputs ==> !InputBroken(node, p, fs))
            && (forall u :: u in node.upstream ==> u in reports && reports[u].passed)))
  }

  lemma InputBrokenIff(node: EvidenceNode, p: string, fs: FileSystem)
    ensures InputBroken(node, p, fs) <==> !InputIntact(node, p, fs)
  {
  }

  lemma {:induction false} ResultUpTo(gates: seq<Gate>, context: Context, i: nat, n: nat)
    requires i < n <= |gates| && forall j :: i < j < n ==> gates[j].name != gates[i].name
    ensures gates[i].name in GateResults(gates[..n], context)
    ensures GateResults(gates[..n], context)[gates[i].name] <==> gates[i].check(context) == Returned(true)
  {
    hide GateResults;
    OneMoreGate(gates, n - 1, context);
    if i < n - 1 {
      ResultUpTo(gates, context, i, n - 1);
    }
  }

  lemma ResultOfLast(gates: seq<Gate>, context: Context, i: nat)
    requires i < |gates| && IsLastOfName(gates, i)
    ensures gates[i].name in GateResults(gates, context)
    ensures GateResults(gates, context)[gates[i].name] <==> gates[i].check(context) == Returned(true)
  {
    hide GateResults;
    ResultUpTo(gates, context, i, |gates|);
    assert gates[..|gates|] == gates;
  }

  lemma {:induction false} NameHasLast(gates: seq<Gate>, name: string) returns (i: nat)
    requires exists g :: g in gates && g.name == name
    ensures i < |gates| && gates[i].name == name && IsLastOfName(gates, i)
  {
    i := |gates| - 1;
    if gates[i].name != name {
      assert gates == gates[..i] + [gates[i]];
      i := NameHasLast(gates[..i], name);
      assert gates[i].name == name && IsLastOfName(gates[..|gates| - 1], i);
    }
  }

  lemma GatesHoldIff(gates: seq<Gate>, context: Context)
    ensures GatesHold(gates, context) <==> AllPass(GateResults(gates, context))
  {
    var results := GateResults(gates, context);
    hide GateResults, IsLastOfName;
    forall i | 0 <= i < |gates| && IsLastOfName(gates, i)
      ensures gates[i].name in results && (results[gates[i].name] <==> gates[i].check(context) == Returned(true))
    {
      ResultOfLast(gates, context, i);
    }
    forall name | name in results
      ensures exists i :: 0 <= i < |gates| && gates[i].name == name && IsLastOfName(gates, i)
    {
      var i := NameHasLast(gates, name);
    }
  }

  /** Whatever the propagation equation lets pass has earned it, and nothing else: no node without a gate
      called "upstream" passes on a missing or changed input, or below an upstream that failed. */
  lemma PassedIffDeserved(
    order: seq<EvidenceNode>, contexts: map<string, Context>, disk: Disk, reports: map<string, Report>,
    node: EvidenceNode)
    requires UpstreamFirst(order) && Propagated(order, contexts, disk, reports) && node in order
    ensures node.Key() in reports
    ensures reports[node.Key()].passed <==> Deserves(node, contexts, disk(node.Key()), reports)
  {
    hide GateResults, AllPass, GatesHold, InputIntact, InputBroken;
    assert ReportFits(node, contexts, disk, reports);
    GatesHoldIff(node.gates, ContextFor(contexts, node.Key()));
    forall p ensures InputBroken(node, p, disk(node.Key())) <==> !InputIntact(node, p, disk(node.Key())) {
      InputBrokenIff(node, p, disk(node.Key()));
    }
    forall u | u in node.upstream ensures u in reports {
      var i :| 0 <= i < |order| && order[i] == node;
      assert IsKey(order[..i], u);
      var n :| n in order[..i] && n.Key() == u;
      assert n in order;
    }
  }

  ghost predicate PassesAreDeserved(
    order: seq<EvidenceNode>, contexts: map<string, Context>, disk: Disk, reports: map<string, Report>)
  {
    forall n :: n in order ==>
      n.Key() in reports && (reports[n.Key()].passed <==> Deserves(n, contexts, disk(n.Key()), reports))
  }

  lemma AllPassedIffDeserved(
    order: seq<EvidenceNode>, contexts: map<string, Context>, disk: Disk, reports: map<string, Report>)
    requires UpstreamFirst(order) && Propagated(order, contexts, disk, reports)
    ensures PassesAreDeserved(order, contexts, disk, reports)
  {
    hide UpstreamFirst, Propagated, Deserves;
    forall n | n in order
      ensures n.Key() in reports && (reports[n.Key()].passed <==> Deserves(n, contexts, disk(n.Key()), reports))
    {
      PassedIffDeserved(order, contexts, disk, reports, n);
    }
  }

  lemma BrokenInputFails(
    order: seq<EvidenceNode>, contexts: map<string, Context>, disk: Disk, reports: map<string, Report>,
    node: EvidenceNode, p: string)
    requires UpstreamFirst(order) && Propagated(order, contexts, disk, reports) && node in order
    requires p in node.inputs && InputBroken(node, p, disk(node.Key()))
    ensures node.Key() in reports
    ensures reports[node.Key()].passed ==> exists g :: g in node.gates && g.name == "upstream"
  {
    hide InputBroken, GatesHold, UpstreamFirst, Propagated;
    PassedIffDeserved(order, contexts, disk, reports, node);
  }

  /** The report is about the node, and lists as blocking exactly the entries that failed: those of its gates
      and, with inputs or upstreams, the one called "upstream". */
  ghost predicate Describes(report: Report, node: EvidenceNode) {
    && report.phase == node.phaseId && report.nodeId == node.Key() && report.decision == node.decision
    && report.inputs == node.inputs && report.outputs == node.outputs
    && (forall name :: name in report.gates <==>
          || (exists g :: g in node.gates && g.name == name)
          || (name == "upstream" && (node.inputs != [] || node.upstream != [])))
    && (forall name :: name in report.blockingFailures <==> name in report.gates && !report.gates[name])
    && (report.passed <==> report.blockingFailures == {})
  }

  lemma MergeThenUpdate<K, V>(m: map<K, V>, n: map<K, V>, k: K, v: V)
    ensures (m + n)[k := v] == m + n[k := v]
  {
  }

  /** Upstreams of a node in an ordered prefix are inside that prefix. */
  lemma UpstreamsInPrefix(ns: seq<EvidenceNode>, i: nat, n: EvidenceNode, u: string)
    requires i <= |ns| && UpstreamFirst(ns) && u in n.upstream
    requires n in ns[..i] || (i < |ns| && n == ns[i])
    ensures IsKey(ns[..i], u)
  {
    var j :| 0 <= j <= i && j < |ns| && ns[j] == n;
    var m :| m in ns[..j] && m.Key() == u;
    assert m in ns[..i];
  }

  lemma NextKeyIsNew(ns: seq<EvidenceNode>, i: nat)
    requires i < |ns| && DistinctKeys(ns)
    ensures !IsKey(ns[..i], ns[i].Key())
    ensures forall k :: IsKey(ns[..i + 1], k) <==> IsKey(ns[..i], k) || k == ns[i].Key()
  {
    assert ns[..i + 1] == ns[..i] + [ns[i]];
    forall k | IsKey(ns[..i], k) ensures IsKey(ns[..i + 1], k) {
      var n :| n in ns[..i] && n.Key() == k;
      assert n in ns[..i + 1];
    }
    assert ns[i] in ns[..i + 1];
  }

  /** A node's verdict depends only on the reports of its upstreams. */
  lemma VerdictDependsOnUpstreams(
    node: EvidenceNode, context: Context, fs: FileSystem, some: map<string, Report>, others: map<string, Report>)
    requires forall u :: u in node.upstream ==> u in some && u in others && some[u] == others[u]
    ensures NodePasses(node, context, fs, some) <==> NodePasses(node, context, fs, others)
  {
    assert UpstreamsPassed(node, some) <==> UpstreamsPassed(node, others);
  }

  lemma ExtendedReportFits(
    ns: seq<EvidenceNode>, i: nat, contexts: map<string, Context>, disk: Disk,
    stale: map<string, Report>, earlier: map<string, Report>, report: Report, n: EvidenceNode)
    requires i < |ns| && DistinctKeys(ns) && UpstreamFirst(ns)
    requires forall k :: k in earlier <==> IsKey(ns[..i], k)
    requires n in ns[..i] ==> ReportFits(n, contexts, disk, earlier)
    requires report.passed <==> NodePasses(ns[i], ContextFor(contexts, ns[i].Key()), disk(ns[i].Key()), stale + earlier)
    requires n in ns[..i + 1]
    ensures ReportFits(n, contexts, disk, earlier[ns[i].Key() := report])
  {
    var later := earlier[ns[i].Key() := report];
    NextKeyIsNew(ns, i);
    assert n in ns[..i] || n == ns[i];
    forall u | u in n.upstream
      ensures u in earlier && u != ns[i].Key()
    {
      UpstreamsInPrefix(ns, i, n, u);
    }
    var context := ContextFor(contexts, n.Key());
    if n in ns[..i] {
      assert IsKey(ns[..i], n.Key());
      VerdictDependsOnUpstreams(n, context, disk(n.Key()), later, earlier);
    } else {
      VerdictDependsOnUpstreams(n, context, disk(n.Key()), later, stale + earlier);
    }
  }

  /** Running the next node of the order keeps the propagation equation at all the nodes run so far:
      only reports of this run are consulted, whatever `stale` holds. */
  lemma ExtendPropagation(
    ns: seq<EvidenceNode>, i: nat, contexts: map<string, Context>, disk: Disk,
    stale: map<string, Report>, earlier: map<string, Report>, report: Report)
    requires i < |ns| && DistinctKeys(ns) && UpstreamFirst(ns)
    requires Propagated(ns[..i], contexts, disk, earlier)
    requires report.passed <==> NodePasses(ns[i], ContextFor(contexts, ns[i].Key()), disk(ns[i].Key()), stale + earlier)
    ensures Propagated(ns[..i + 1], contexts, disk, earlier[ns[i].Key() := report])
  {
    var later := earlier[ns[i].Key() := report];
    NextKeyIsNew(ns, i);
    forall n | n in ns[..i + 1]
      ensures ReportFits(n, contexts, disk, later)
    {
      ExtendedReportFits(ns, i, contexts, disk, stale, earlier, report, n);
    }
  }

  ghost predicate AllDescribed(ns: seq<EvidenceNode>, reports: map<string, Report>) {
    forall n :: n in ns ==> n.Key() in reports && Describes(reports[n.Key()], n)
  }

  lemma ExtendDescribed(ns: seq<EvidenceNode>, i: nat, earlier: map<string, Report>, report: Report)
    requires i < |ns| && DistinctKeys(ns) && AllDescribed(ns[..i], earlier) && Describes(report, ns[i])
    ensures AllDescribed(ns[..i + 1], earlier[ns[i].Key() := report])
  {
    hide Describes;
    NextKeyIsNew(ns, i);
    forall n | n in ns[..i + 1]
      ensures n in ns[..i] || n == ns[i]
      ensures n in ns[..i] ==> n.Key() != ns[i].Key()
    {
      if n in ns[..i] {
        assert IsKey(ns[..i], n.Key());
      }
    }
  }

  lemma NothingRun(contexts: map<string, Context>, disk: Disk)
    ensures Propagated([], contexts, disk, map[]) && AllDescribed([], map[])
  {
  }

  lemma OrderIsUpstreamFirst(nodes: seq<EvidenceNode>, order: seq<EvidenceNode>)
    requires IsTopologicalOrder(nodes, order)
    ensures DistinctKeys(order) && UpstreamFirst(order)
  {
  }

  /** Running the next node keeps all that is said of the run so far. */
  lemma ExtendRun(
    ns: seq<EvidenceNode>, i: nat, contexts: map<string, Context>, disk: Disk,
    stale: map<string, Report>, earlier: map<string, Report>, report: Report)
    requires i < |ns| && DistinctKeys(ns) && UpstreamFirst(ns)
    requires Propagated(ns[..i], contexts, disk, earlier) && AllDescribed(ns[..i], earlier)
    requires report.passed <==> NodePasses(ns[i], ContextFor(contexts, ns[i].Key()), disk(ns[i].Key()), stale + earlier)
    requires Describes(report, ns[i])
    ensures var later := earlier[ns[i].Key() := report];
            && Propagated(ns[..i + 1], contexts, disk, later) && AllDescribed(ns[..i + 1], later)
            && (stale + earlier)[ns[i].Key() := report] == stale + later
  {
    hide Describes, AllDescribed, NodePasses, Propagated, DistinctKeys, UpstreamFirst;
    MergeThenUpdate(stale, earlier, ns[i].Key(), report);
    ExtendPropagation(ns, i, contexts, disk, stale, earlier, report);
    ExtendDescribed(ns, i, earlier, report);
  }

  class EvidenceChain {
    const nodes: seq<EvidenceNode>
    const byKey: map<string, EvidenceNode>
    var lastReports: map<string, Report>

    ghost predicate Valid() {
      byKey == IndexByKey(nodes)
    }

    constructor (nodes: seq<EvidenceNode>)
      ensures Valid() && this.nodes == nodes && lastReports == map[]
    {
      this.nodes := nodes;
      this.byKey := IndexByKey(nodes);
      lastReports := map[];
    }

    method TopologicalOrder() returns (result: OrderResult)
      requires Valid()
      ensures result.Ordered? ==> IsTopologicalOrder(nodes, result.nodes)
      ensures result.Failed? && result.error.CycleAt? ==> IsAncestor(nodes, result.error.key, result.error.key)
      ensures result.Failed? && result.error.UnknownUpstream? ==>
                !IsKey(nodes, result.error.key) && exists n :: n in nodes && result.error.key in n.upstream
      ensures DistinctKeys(nodes) ==> (result.Ordered? <==> !HasCycle(nodes) && AllUpstreamsKnown(nodes))
      ensures DistinctKeys(nodes) && result.Ordered? ==> multiset(result.nodes) == multiset(nodes)
      ensures AllUpstreamsKnown(nodes) && DistinctKeys(nodes) ==>
                ((result.Failed? && result.error.CycleAt?) <==> HasCycle(nodes))
    {
      hide IndexByKey, KeySet, IsAncestor, UpstreamFirst;
      var visitor := new Visitor(nodes, byKey);
      var i := 0;
      while i < |nodes|
        invariant 0 <= i <= |nodes|
        invariant fresh(visitor) && visitor.nodes == nodes && visitor.Valid()
        invariant visitor.temporary == {}
        invariant forall j :: 0 <= j < i ==> nodes[j].Key() in visitor.permanent
      {
        :- visitor.Visit(nodes[i], []);
        i := i + 1;
      }
      result := Ordered(visitor.ordered);
      if DistinctKeys(nodes) {
        OrderedMeansAcyclic(nodes, visitor.ordered);
        OrderIsPermutation(nodes, visitor.ordered);
      }
    }

    method RunGates(node: EvidenceNode, context: Context) returns (results: map<string, bool>)
      ensures results == GateResults(node.gates, context)
    {
      hide GateResults;
      results := map[];
      var i := 0;
      NoGates(context);
      while i < |node.gates|
        invariant 0 <= i <= |node.gates|
        invariant results == GateResults(node.gates[..i], context)
      {
        OneMoreGate(node.gates, i, context);
        match node.gates[i].check(context) {
          case Returned(verdict) => results := results[node.gates[i].name := verdict];
          case Raised => results := results[node.gates[i].name := false];
        }
        i := i + 1;
      }
      assert node.gates[..i] == node.gates;
    }

    method VerifyUpstream(node: EvidenceNode, fs: FileSystem) returns (ok: bool)
      ensures ok <==> InputsIntact(node, fs) && UpstreamsPassed(node, lastReports)
    {
      var i := 0;
      while i < |node.inputs|
        invariant 0 <= i <= |node.inputs|
        invariant forall j :: 0 <= j < i ==> InputIntact(node, node.inputs[j], fs)
      {
        var rawPath := node.inputs[i];
        assert rawPath in node.inputs;
        if rawPath !in fs.digests {
          return false;
        }
        var expected := ExpectedDigest(node, rawPath, fs);
        if expected != "" && fs.digests[rawPath] != expected {
          return false;
        }
        i := i + 1;
      }
      i := 0;
      while i < |node.upstream|
        invariant 0 <= i <= |node.upstream|
        invariant forall j :: 0 <= j < i && node.upstream[j] in lastReports ==> lastReports[node.upstream[j]].passed
      {
        if node.upstream[i] in lastReports && !lastReports[node.upstream[i]].passed {
          return false;
        }
        i := i + 1;
      }
      return true;
    }

    function EmitReport(node: EvidenceNode, gateResults: map<string, bool>): (report: Report)
      ensures report.passed <==> AllPass(gateResults)
      ensures report.passed <==> report.blockingFailures == {}
    {
      var blocking := set name | name in gateResults && !gateResults[name];
      assert blocking == {} <==> AllPass(gateResults) by {
        assert forall name :: name in gateResults && !gateResults[name] ==> name in blocking;
      }
      Report(node.phaseId, node.Key(), node.decision, node.inputs, node.outputs, gateResults, blocking == {}, blocking)
    }

    method RunNode(node: EvidenceNode, context: Context, fs: FileSystem) returns (report: Report)
      modifies this
      ensures lastReports == old(lastReports)[node.Key() := report]
      ensures report.passed <==> NodePasses(node, context, fs, old(lastReports))
      ensures Describes(report, node)
      ensures report.gates == WithUpstreamEntry(node, GateResults(node.gates, context),
                                                InputsIntact(node, fs) && UpstreamsPassed(node, old(lastReports)))
    {
      var upstreamPassed := VerifyUpstream(node, fs);
      var gateResults := RunGates(node, context);
      UpstreamEntryDecides(node, gateResults, upstreamPassed);
      assert "upstream" in gateResults <==> HasUpstreamGate(node);
      if node.inputs != [] || node.upstream != [] {
        gateResults := map["upstream" := upstreamPassed] + gateResults;
      }
      report := EmitReport(node, gateResults);
      lastReports := lastReports[node.Key() := report];
    }

    /** Whatever stale reports an earlier run left, the reports of this run satisfy the propagation
        equation among themselves; other stale reports stay as they were. */
    method RunAll(
      contexts: map<string, Context>, disk: Disk)
      returns (result: RunResult, ghost order: seq<EvidenceNode>)
      requires Valid()
      modifies this
      ensures result.Reports? ==> IsTopologicalOrder(nodes, order)
      ensures result.Reports? ==> Propagated(order, contexts, disk, result.reports)
      ensures result.Reports? ==> AllDescribed(order, result.reports)
      ensures result.Reports? ==> PassesAreDeserved(order, contexts, disk, result.reports)
      ensures result.Reports? ==> lastReports == old(lastReports) + result.reports
      ensures result.NoOrder? ==> lastReports == old(lastReports)
      ensures DistinctKeys(nodes) ==> (result.NoOrder? <==> HasCycle(nodes) || !AllUpstreamsKnown(nodes))
    {
      hide Describes, PassesAreDeserved, AllDescribed, NodePasses, Propagated, GateResults, WithUpstreamEntry,
        InputsIntact, UpstreamsPassed, IsAncestor, IndexByKey, IsTopologicalOrder, DistinctKeys, UpstreamFirst, IsKey,
        HasCycle, AllUpstreamsKnown;
      var topological := TopologicalOrder();
      if topological.Failed? {
        return NoOrder(topological.error), [];
      }
      var ns := topological.nodes;
      order := ns;
      OrderIsUpstreamFirst(nodes, ns);
      var reports: map<string, Report> := map[];
      var i := 0;
      NothingRun(contexts, disk);
      while i < |ns|
        invariant 0 <= i <= |ns|
        invariant lastReports == old(lastReports) + reports
        invariant Propagated(ns[..i], contexts, disk, reports)
        invariant AllDescribed(ns[..i], reports)
      {
        ghost var stale := old(lastReports);
        ghost var earlier := reports;
        var report := RunNode(ns[i], ContextFor(contexts, ns[i].Key()), disk(ns[i].Key()));
        reports := reports[ns[i].Key() := report];
        ExtendRun(ns, i, contexts, disk, stale, earlier, report);
        i := i + 1;
      }
      assert ns[..i] == ns;
      AllPassedIffDeserved(ns, contexts, disk, reports);
      result := Reports(reports);
    }
  }

  /******* Ancestor safety *******/

  ghost predicate SoundAt(nodes: seq<EvidenceNode>, key: string, contexts: map<string, Context>, disk: Disk) {
    forall n :: n in nodes && n.Key() == key ==> LocallySound(n, ContextFor(contexts, key), disk(key))
  }

  lemma PassesLocally(node: EvidenceNode, context: Context, fs: FileSystem, reports: map<string, Report>)
    requires !HasUpstreamGate(node) && forall u :: u in node.upstream ==> u in reports
    ensures NodePasses(node, context, fs, reports) <==>
              LocallySound(node, context, fs) && forall u :: u in node.upstream ==> reports[u].passed
  {
  }

  lemma AncestorOfUpstream(nodes: seq<EvidenceNode>, key: string, u: string, a: string)
    requires Edge(nodes, key, u) && IsAncestor(nodes, u, a)
    ensures IsAncestor(nodes, key, a)
  {
    var path :| PathBetween(nodes, u, a, path);
    var longer := [key] + path;
    forall i | 0 <= i < |longer| - 1
      ensures Edge(nodes, longer[i], longer[i + 1])
    {
      if i == 0 {
      } else {
        assert Edge(nodes, path[i - 1], path[i - 1 + 1]);
      }
    }
    assert PathBetween(nodes, key, a, longer);
  }

  lemma FirstStep(nodes: seq<EvidenceNode>, node: EvidenceNode, a: string)
    requires DistinctKeys(nodes) && node in nodes && IsAncestor(nodes, node.Key(), a)
    ensures exists u :: u in node.upstream && (a == u || IsAncestor(nodes, u, a))
  {
    var path :| PathBetween(nodes, node.Key(), a, path);
    assert Edge(nodes, path[0], path[0 + 1]);
    var n :| n in nodes && n.Key() == path[0] && path[1] in n.upstream;
    SameKeySameNode(nodes, n, node);
    if |path| > 2 {
      PathTail(nodes, path);
      assert PathBetween(nodes, path[1], a, path[1..]);
    }
  }

  /**
    The meaning of a passing report. When no gate is called "upstream", a node passes exactly when the
    node and all its ancestors, at any distance, have intact inputs and passing gates of their own.
   */
  lemma {:induction false} PassedIffAncestrySound(
    nodes: seq<EvidenceNode>, order: seq<EvidenceNode>, contexts: map<string, Context>, disk: Disk,
    reports: map<string, Report>, node: EvidenceNode)
    requires DistinctKeys(nodes) && IsTopologicalOrder(nodes, order) && node in nodes
    requires forall n :: n in nodes ==> !HasUpstreamGate(n)
    requires Propagated(order, contexts, disk, reports)
    ensures node.Key() in reports
    ensures reports[node.Key()].passed <==>
              && SoundAt(nodes, node.Key(), contexts, disk)
              && forall a :: IsAncestor(nodes, node.Key(), a) ==> SoundAt(nodes, a, contexts, disk)
    decreases Position(order, node.Key())
  {
    hide NodePasses, LocallySound, HasUpstreamGate, UpstreamFirst;
    var key := node.Key();
    var p := Position(order, key);
    SameKeySameNode(nodes, node, order[p]);
    assert node in order;
    assert SoundAt(nodes, key, contexts, disk) <==> LocallySound(node, ContextFor(contexts, key), disk(key)) by {
      forall n | n in nodes && n.Key() == key ensures n == node { SameKeySameNode(nodes, n, node); }
    }
    forall u | u in node.upstream
      ensures u in reports
      ensures IsAncestor(nodes, key, u)
      ensures reports[u].passed <==>
                SoundAt(nodes, u, contexts, disk)
                  && forall a :: IsAncestor(nodes, u, a) ==> SoundAt(nodes, a, contexts, disk)
      ensures forall a :: IsAncestor(nodes, u, a) ==> IsAncestor(nodes, key, a)
    {
      assert Edge(nodes, key, u);
      EdgeGoesBack(nodes, order, key, u);
      var up := order[Position(order, u)];
      PassedIffAncestrySound(nodes, order, contexts, disk, reports, up);
      assert PathBetween(nodes, key, u, [key, u]);
      forall a | IsAncestor(nodes, u, a) ensures IsAncestor(nodes, key, a) { AncestorOfUpstream(nodes, key, u, a); }
    }
    PassesLocally(node, ContextFor(contexts, key), disk(key), reports);
    forall a | IsAncestor(nodes, key, a)
      ensures exists u :: u in node.upstream && (a == u || IsAncestor(nodes, u, a))
    {
      FirstStep(nodes, node, a);
    }
  }

  lemma JoinPaths(nodes: seq<EvidenceNode>, a: string, b: string, c: string)
    requires IsAncestor(nodes, a, b) && IsAncestor(nodes, b, c)
    ensures IsAncestor(nodes, a, c)
  {
    var ab :| PathBetween(nodes, a, b, ab);
    var bc :| PathBetween(nodes, b, c, bc);
    var ac := ab + bc[1..];
    forall i | 0 <= i < |ac| - 1
      ensures Edge(nodes, ac[i], ac[i + 1])
    {
      if i < |ab| - 1 {
        assert Edge(nodes, ab[i], ab[i + 1]);
      } else {
        assert Edge(nodes, bc[i - |ab| + 1], bc[i - |ab| + 1 + 1]);
      }
    }
    assert PathBetween(nodes, a, c, ac);
  }

  /** The safety promise: under a passing report every ancestor's report passes as well. */
  lemma PassedHasPassingAncestors(
    nodes: seq<EvidenceNode>, order: seq<EvidenceNode>, contexts: map<string, Context>, disk: Disk,
    reports: map<string, Report>, node: EvidenceNode, ancestor: EvidenceNode)
    requires DistinctKeys(nodes) && IsTopologicalOrder(nodes, order) && node in nodes && ancestor in nodes
    requires forall n :: n in nodes ==> !HasUpstreamGate(n)
    requires Propagated(order, contexts, disk, reports)
    requires IsAncestor(nodes, node.Key(), ancestor.Key())
    ensures node.Key() in reports && ancestor.Key() in reports
    ensures reports[node.Key()].passed ==> reports[ancestor.Key()].passed
  {
    PassedIffAncestrySound(nodes, order, contexts, disk, reports, node);
    PassedIffAncestrySound(nodes, order, contexts, disk, reports, ancestor);
    forall a | IsAncestor(nodes, ancestor.Key(), a)
      ensures IsAncestor(nodes, node.Key(), a)
    {
      JoinPaths(nodes, node.Key(), ancestor.Key(), a);
    }
  }

  /** The propagation equation below a failed upstream: there a node passes if and only if one of its gates
      is called "upstream", so that its result replaces the verdict on the upstreams, and its gates pass. */
  lemma PassesBelowFailureIff(
    order: seq<EvidenceNode>, contexts: map<string, Context>, disk: Disk,
    reports: map<string, Report>, node: EvidenceNode, upstream: string)
    requires UpstreamFirst(order) && Propagated(order, contexts, disk, reports)
    requires node in order && upstream in node.upstream
    ensures upstream in reports
    ensures !reports[upstream].passed ==>
              (reports[node.Key()].passed <==>
               HasUpstreamGate(node) && AllPass(GateResults(node.gates, ContextFor(contexts, node.Key()))))
  {
    var i :| 0 <= i < |order| && order[i] == node;
    assert IsKey(order[..i], upstream);
    var n :| n in order[..i] && n.Key() == upstream;
    assert n in order;
  }

  predicate Passed(reports: map<string, Report>, key: string) {
    key in reports && reports[key].passed
  }

  /** A passing report has only passing reports above it, at any distance. */
  ghost predicate AncestorsPass(nodes: seq<EvidenceNode>, reports: map<string, Report>) {
    forall key, ancestor :: IsAncestor(nodes, key, ancestor) && Passed(reports, key) ==> Passed(reports, ancestor)
  }

  /** The node replaces the verdict on its upstreams, and its gates all pass. */
  ghost predicate Masks(node: EvidenceNode, contexts: map<string, Context>) {
    HasUpstreamGate(node) && AllPass(GateResults(node.gates, ContextFor(contexts, node.Key())))
  }

  /** Nodes that mask have only passing direct upstreams. */
  ghost predicate NothingMasked(
    nodes: seq<EvidenceNode>, contexts: map<string, Context>, reports: map<string, Report>)
  {
    forall n, u :: n in nodes && u in n.upstream && Masks(n, contexts) ==> Passed(reports, u)
  }

  lemma NodeFits(
    nodes: seq<EvidenceNode>, order: seq<EvidenceNode>, contexts: map<string, Context>, disk: Disk,
    reports: map<string, Report>, node: EvidenceNode)
    requires DistinctKeys(nodes) && IsTopologicalOrder(nodes, order) && node in nodes
    requires Propagated(order, contexts, disk, reports)
    ensures ReportFits(node, contexts, disk, reports)
    ensures forall u :: u in node.upstream ==> u in reports
  {
    var p := Position(order, node.Key());
    SameKeySameNode(nodes, node, order[p]);
    forall u | u in node.upstream ensures u in reports {
      assert Edge(nodes, node.Key(), u);
      EdgeGoesBack(nodes, order, node.Key(), u);
    }
  }

  /** One edge: above a passing node stands a passing report, unless the node masks it; a node that masks passes. */
  lemma PassingEdge(
    node: EvidenceNode, contexts: map<string, Context>, disk: Disk, reports: map<string, Report>, u: string)
    requires ReportFits(node, contexts, disk, reports) && u in node.upstream && u in reports
    ensures Passed(reports, node.Key()) && !Masks(node, contexts) ==> Passed(reports, u)
    ensures Masks(node, contexts) ==> Passed(reports, node.Key())
  {
    hide InputsIntact, GateResults, AllPass;
  }

  lemma {:induction false} PassingPath(
    nodes: seq<EvidenceNode>, order: seq<EvidenceNode>, contexts: map<string, Context>, disk: Disk,
    reports: map<string, Report>, path: seq<string>)
    requires DistinctKeys(nodes) && IsTopologicalOrder(nodes, order)
    requires Propagated(order, contexts, disk, reports) && NothingMasked(nodes, contexts, reports)
    requires |path| > 0 && IsPath(nodes, path) && Passed(reports, path[0])
    ensures Passed(reports, path[|path| - 1])
    decreases |path|
  {
    hide Propagated, IsTopologicalOrder, DistinctKeys, ReportFits, Masks;
    if |path| > 1 {
      assert Edge(nodes, path[0], path[0 + 1]);
      var n :| n in nodes && n.Key() == path[0] && path[1] in n.upstream;
      NodeFits(nodes, order, contexts, disk, reports, n);
      PassingEdge(n, contexts, disk, reports, path[1]);
      PathTail(nodes, path);
      PassingPath(nodes, order, contexts, disk, reports, path[1..]);
    }
  }

  /** Seen from the reports: ancestor safety is that nothing is masked. */
  lemma SafeIffNothingMasked(
    nodes: seq<EvidenceNode>, order: seq<EvidenceNode>, contexts: map<string, Context>, disk: Disk,
    reports: map<string, Report>)
    requires DistinctKeys(nodes) && IsTopologicalOrder(nodes, order) && Propagated(order, contexts, disk, reports)
    ensures AncestorsPass(nodes, reports) <==> NothingMasked(nodes, contexts, reports)
  {
    hide Propagated, IsTopologicalOrder, DistinctKeys, ReportFits, Masks;
    if NothingMasked(nodes, contexts, reports) {
      forall key, ancestor | IsAncestor(nodes, key, ancestor) && Passed(reports, key)
        ensures Passed(reports, ancestor)
      {
        var path :| PathBetween(nodes, key, ancestor, path);
        PassingPath(nodes, order, contexts, disk, reports, path);
      }
    }
    if AncestorsPass(nodes, reports) {
      forall n, u | n in nodes && u in n.upstream && Masks(n, contexts)
        ensures Passed(reports, u)
      {
        NodeFits(nodes, order, contexts, disk, reports, n);
        PassingEdge(n, contexts, disk, reports, u);
        assert Edge(nodes, n.Key(), u);
        assert PathBetween(nodes, n.Key(), u, [n.Key(), u]);
      }
    }
  }

  /** The gates of the node pass, and its inputs are intact unless a gate of it replaces their verdict. */
  ghost predicate SelfSound(node: EvidenceNode, contexts: map<string, Context>, disk: Disk) {
    && AllPass(GateResults(node.gates, ContextFor(contexts, node.Key())))
    && (HasUpstreamGate(node) || InputsIntact(node, disk(node.Key())))
  }

  ghost predicate AncestorsSound(
    nodes: seq<EvidenceNode>, key: string, contexts: map<string, Context>, disk: Disk)
  {
    forall a :: a in nodes && IsAncestor(nodes, key, a.Key()) ==> SelfSound(a, contexts, disk)
  }

  /** Whatever stands above a node that masks is sound by itself. */
  ghost predicate MaskedAreSound(nodes: seq<EvidenceNode>, contexts: map<string, Context>, disk: Disk) {
    forall n :: n in nodes && Masks(n, contexts) ==> AncestorsSound(nodes, n.Key(), contexts, disk)
  }

  lemma PassedIsSelfSound(
    node: EvidenceNode, contexts: map<string, Context>, disk: Disk, reports: map<string, Report>)
    requires ReportFits(node, contexts, disk, reports)
    ensures Passed(reports, node.Key()) ==> SelfSound(node, contexts, disk)
    ensures Masks(node, contexts) ==> Passed(reports, node.Key())
    ensures SelfSound(node, contexts, disk) && (forall u :: u in node.upstream ==> Passed(reports, u)) ==>
              Passed(reports, node.Key())
  {
    hide InputsIntact, GateResults, AllPass;
  }

  /** A node that is sound, with sound ancestors, passes. */
  lemma {:induction false} SoundAncestryPasses(
    nodes: seq<EvidenceNode>, order: seq<EvidenceNode>, contexts: map<string, Context>, disk: Disk,
    reports: map<string, Report>, node: EvidenceNode)
    requires DistinctKeys(nodes) && IsTopologicalOrder(nodes, order) && node in nodes
    requires Propagated(order, contexts, disk, reports)
    requires SelfSound(node, contexts, disk) && AncestorsSound(nodes, node.Key(), contexts, disk)
    ensures Passed(reports, node.Key())
    decreases Position(order, node.Key())
  {
    hide Propagated, ReportFits, SelfSound, DistinctKeys;
    NodeFits(nodes, order, contexts, disk, reports, node);
    forall u | u in node.upstream ensures Passed(reports, u) {
      assert Edge(nodes, node.Key(), u);
      EdgeGoesBack(nodes, order, node.Key(), u);
      var up := order[Position(order, u)];
      assert up in order;
      assert PathBetween(nodes, node.Key(), u, [node.Key(), u]);
      forall a | a in nodes && IsAncestor(nodes, u, a.Key()) ensures SelfSound(a, contexts, disk) {
        AncestorOfUpstream(nodes, node.Key(), u, a.Key());
      }
      SoundAncestryPasses(nodes, order, contexts, disk, reports, up);
    }
    PassedIsSelfSound(node, contexts, disk, reports);
  }

  lemma UpstreamOfMaskPasses(
    nodes: seq<EvidenceNode>, order: seq<EvidenceNode>, contexts: map<string, Context>, disk: Disk,
    reports: map<string, Report>, n: EvidenceNode, u: string)
    requires DistinctKeys(nodes) && IsTopologicalOrder(nodes, order) && Propagated(order, contexts, disk, reports)
    requires n in nodes && u in n.upstream && AncestorsSound(nodes, n.Key(), contexts, disk)
    ensures Passed(reports, u)
  {
    hide Propagated, DistinctKeys, SelfSound;
    assert Edge(nodes, n.Key(), u);
    EdgeGoesBack(nodes, order, n.Key(), u);
    var up := order[Position(order, u)];
    assert up in order;
    assert PathBetween(nodes, n.Key(), u, [n.Key(), u]);
    forall a | a in nodes && IsAncestor(nodes, u, a.Key()) ensures SelfSound(a, contexts, disk) {
      AncestorOfUpstream(nodes, n.Key(), u, a.Key());
    }
    SoundAncestryPasses(nodes, order, contexts, disk, reports, up);
  }

  /**
    Exactly when a run keeps the safety promise, told from its inputs alone and with no assumption on gate
    names: if and only if, above every node with a gate called "upstream" whose gates all pass, each
    ancestor has passing gates and intact inputs (the inputs do not matter where it has such a gate itself).
   */
  lemma AncestorSafetyIff(
    nodes: seq<EvidenceNode>, order: seq<EvidenceNode>, contexts: map<string, Context>, disk: Disk,
    reports: map<string, Report>)
    requires DistinctKeys(nodes) && IsTopologicalOrder(nodes, order) && Propagated(order, contexts, disk, reports)
    ensures AncestorsPass(nodes, reports) <==> MaskedAreSound(nodes, contexts, disk)
  {
    hide Propagated, IsTopologicalOrder, DistinctKeys, ReportFits, Masks, SelfSound;
    SafeIffNothingMasked(nodes, order, contexts, disk, reports);
    if AncestorsPass(nodes, reports) {
      forall n, a | n in nodes && Masks(n, contexts) && a in nodes && IsAncestor(nodes, n.Key(), a.Key())
        ensures SelfSound(a, contexts, disk)
      {
        NodeFits(nodes, order, contexts, disk, reports, n);
        NodeFits(nodes, order, contexts, disk, reports, a);
        PassedIsSelfSound(n, contexts, disk, reports);
        PassedIsSelfSound(a, contexts, disk, reports);
      }
    }
    if MaskedAreSound(nodes, contexts, disk) {
      forall n, u | n in nodes && u in n.upstream && Masks(n, contexts) ensures Passed(reports, u) {
        UpstreamOfMaskPasses(nodes, order, contexts, disk, reports, n, u);
      }
    }
  }

  /** A failing node and, downstream of it, a node whose only gate is called "upstream". */
  function FailingNode(): EvidenceNode {
    EvidenceNode("a", [], [], [Gate("check", (c: Context) => Returned(false), "")], "", "", [], map[])
  }

  function MaskingNode(): EvidenceNode {
    EvidenceNode("b", [], [], [Gate("upstream", (c: Context) => Returned(true), "")], "", "", ["a"], map[])
  }

  lemma SingleGate(gate: Gate, context: Context)
    ensures AllPass(GateResults([gate], context)) <==> GatePasses(gate, context)
  {
    assert [gate][..0] == [];
    assert GateResults([gate], context) == map[gate.name := GatePasses(gate, context)];
    assert gate.name in GateResults([gate], context);
  }

  function FailingChain(): seq<EvidenceNode> {
    [FailingNode(), MaskingNode()]
  }

  lemma FailingChainIsOrdered()
    ensures IsTopologicalOrder(FailingChain(), FailingChain())
  {
    var a, b := FailingNode(), MaskingNode();
    var order := FailingChain();
    assert a.Key() == "a" && b.Key() == "b" && "a" != "b";
    assert a in order && b in order;
    assert order[..1] == [a] && a in order[..1];
    assert IsKey(order[..1], "a");
  }

  /** A concrete chain on which a node passes below a failed upstream. */
  lemma UpstreamGateDefeatsPropagation(disk: Disk, reports: map<string, Report>)
    requires Propagated(FailingChain(), map[], disk, reports)
    ensures IsTopologicalOrder(FailingChain(), FailingChain())
    ensures "a" in MaskingNode().upstream && "a" in reports && "b" in reports
    ensures !reports["a"].passed && reports["b"].passed
  {
    hide GateResults, AllPass, InputsIntact, UpstreamsPassed, DistinctKeys, UpstreamFirst, IsKey;
    FailingChainIsOrdered();
    var a, b := FailingNode(), MaskingNode();
    assert FailingChain()[0] == a && FailingChain()[1] == b;
    assert a in FailingChain() && b in FailingChain();
    assert ReportFits(a, map[], disk, reports);
    assert a.Key() == "a" && b.Key() == "b";
    assert b.gates[0] in b.gates && HasUpstreamGate(b);
    SingleGate(a.gates[0], map[]);
    SingleGate(b.gates[0], map[]);
    PassesBelowFailureIff(FailingChain(), map[], disk, reports, b, "a");
  }
}
