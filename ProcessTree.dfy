// A tree of external processes (MediaPlayer/ProcessTree.cpp). Every node owns
// one Runnable, two optional callbacks and one QProcess; a node's children are
// started from its finish handler, whatever the exit code. The nodes of one
// tree live in this class side by side, indexed from the root 0; the QProcess
// of each node is its ProcessState together with the events in `log`.

module ProcessTrees {
  import Decimal
  import opened Runnables

  /** QProcess::ProcessState */
  datatype ProcessState = NotRunning | Starting | Running

  /** QProcess::ExitStatus, printed by QString::arg as its numeric value. */
  datatype ExitStatus = NormalExit | CrashExit

  function StatusCode(s: ExitStatus): int {
    match s
    case NormalExit => 0
    case CrashExit => 1
  }

  /** What a node does that can be observed from outside. */
  datatype Event =
    | Launch(node: nat, command: string, arguments: seq<string>)  // QProcess::start
    | Started(node: nat)                                           // QProcess::started
    | Finished(node: nat, exitCode: int, status: ExitStatus)       // QProcess::finished
    | RunnableLog(node: nat, message: string)                      // Runnable::logMessage
    | CallbackMessage(node: nat, callback: Message)                // mOnStart / mOnFinish

  /** What a callback is handed, before it is rendered as text. */
  datatype Message =
    | StartMessage(name: string)
    | FinishMessage(name: string, exitCode: int, status: ExitStatus)

  /** The QString a callback receives. */
  function Text(m: Message): string {
    match m
    case StartMessage(name) => "started " + name
    case FinishMessage(name, exitCode, status) =>
      "finished " + name + " with exit code and status: " +
      Decimal.IntText(exitCode) + ", " + Decimal.IntText(StatusCode(status))
  }

  /** The logMessage signals a hook emits, as events of node n. */
  function Logs(n: nat, messages: seq<string>): (r: seq<Event>)
    ensures |r| == |messages|
    ensures forall i :: 0 <= i < |r| ==> r[i] == RunnableLog(n, messages[i])
  {
    seq(|messages|, i requires 0 <= i < |messages| => RunnableLog(n, messages[i]))
  }

  /** The logMessage events of node n are quiet: no launch among them. */
  lemma LogsAreQuiet(n: nat, messages: seq<string>)
    ensures forall e :: e in Logs(n, messages) ==> e == RunnableLog(n, e.message)
  {
  }

  /** start() on node c: a process that is not running is launched; otherwise QProcess ignores the call. */
  function StartOne(states: seq<ProcessState>, runnables: seq<Runnable>, c: nat): (seq<ProcessState>, seq<Event>)
    requires c < |states| && c < |runnables|
  {
    if states[c] == NotRunning then
      (states[c := Starting], [Launch(c, runnables[c].command, runnables[c].arguments)])
    else
      (states, [])
  }

  /** start() on each of kids in turn: the new states and the launches, in order. */
  function StartEach(states: seq<ProcessState>, runnables: seq<Runnable>, kids: seq<nat>): (r: (seq<ProcessState>, seq<Event>))
    requires NodesBelow(kids, |states|) && NodesBelow(kids, |runnables|)
    ensures |r.0| == |states|
  {
    if kids == [] then
      (states, [])
    else
      var prev := StartEach(states, runnables, kids[..|kids| - 1]);
      var step := StartOne(prev.0, runnables, kids[|kids| - 1]);
      (step.0, prev.1 + step.1)
  }

  /** The launches of the kids that were idle to begin with, in the kids' order. */
  function IdleLaunches(states: seq<ProcessState>, runnables: seq<Runnable>, kids: seq<nat>): seq<Event>
    requires NodesBelow(kids, |states|) && NodesBelow(kids, |runnables|)
  {
    if kids == [] then
      []
    else
      var c := kids[|kids| - 1];
      IdleLaunches(states, runnables, kids[..|kids| - 1]) +
      (if states[c] == NotRunning then [Launch(c, runnables[c].command, runnables[c].arguments)] else [])
  }

  /** Every node named in kids is below n. */
  predicate NodesBelow(kids: seq<nat>, n: nat) {
    forall i :: 0 <= i < |kids| ==> kids[i] < n
  }

  predicate Distinct(kids: seq<nat>) {
    forall i, j :: 0 <= i < j < |kids| ==> kids[i] != kids[j]
  }

  /**
   * Starting distinct kids one after another: each kid is asked once, in
   * order; a kid that was idle is launched and is Starting afterwards, every
   * other state is as before, and the launches are exactly those of the
   * kids that were idle at the outset.
   */
  lemma {:induction false} StartEachStartsEveryKidOnce(states: seq<ProcessState>, runnables: seq<Runnable>, kids: seq<nat>)
    requires NodesBelow(kids, |states|) && NodesBelow(kids, |runnables|)
    requires Distinct(kids)
    ensures var r := StartEach(states, runnables, kids);
      r.1 == IdleLaunches(states, runnables, kids) &&
      forall c :: 0 <= c < |states| ==>
        r.0[c] == (if c in kids && states[c] == NotRunning then Starting else states[c])
  {
    if kids != [] {
      var init := kids[..|kids| - 1];
      var c := kids[|kids| - 1];
      assert forall k :: k in init ==> k in kids;
      assert c !in init by {
        forall i | 0 <= i < |init| ensures init[i] != c {
          assert init[i] == kids[i];
        }
      }
      assert forall k :: k in kids <==> k in init || k == c;
      StartEachStartsEveryKidOnce(states, runnables, init);
    }
  }

  /** Every launch in IdleLaunches is a launch of one of the kids. */
  lemma {:induction false} IdleLaunchesAreKids(states: seq<ProcessState>, runnables: seq<Runnable>, kids: seq<nat>)
    requires NodesBelow(kids, |states|) && NodesBelow(kids, |runnables|)
    ensures forall e :: e in IdleLaunches(states, runnables, kids) ==> e.Launch? && e.node in kids
  {
    if kids != [] {
      var init := kids[..|kids| - 1];
      assert forall k :: k in init ==> k in kids;
      IdleLaunchesAreKids(states, runnables, init);
    }
  }

  /** Node p has finished somewhere before position i of the log. */
  ghost predicate FinishedBefore(log: seq<Event>, i: int, p: nat) {
    exists j :: 0 <= j < i && j < |log| && log[j].Finished? && log[j].node == p
  }

  /**
   * Every launch of a node that was not started from outside comes after a
   * Finished event of its parent.
   */
  ghost predicate LaunchesFollowParents(log: seq<Event>, parent: seq<nat>, external: set<nat>) {
    forall i :: 0 <= i < |log| && log[i].Launch? && log[i].node !in external && log[i].node < |parent| ==>
      FinishedBefore(log, i, parent[log[i].node])
  }

  /** The tree shape: n nodes, each child after its parent, each listed once by its parent. */
  ghost predicate WellFormed(n: nat, hasOnStart: seq<bool>, hasOnFinish: seq<bool>, children: seq<seq<nat>>,
                             parent: seq<nat>, stateCount: nat) {
    1 <= n && |hasOnStart| == n && |hasOnFinish| == n && |children| == n && |parent| == n && stateCount == n &&
    parent[0] == 0 &&
    (forall c :: 0 < c < n ==> parent[c] < c) &&
    (forall p, i :: 0 <= p < n && 0 <= i < |children[p]| ==>
      p < children[p][i] < n && parent[children[p][i]] == p) &&
    (forall p :: 0 <= p < n ==> Distinct(children[p]))
  }

  /** The log names existing nodes only and launches children after their parents finish. */
  ghost predicate LogOk(log: seq<Event>, n: nat, parent: seq<nat>, external: set<nat>) {
    (forall e :: e in log ==> e.node < n) && LaunchesFollowParents(log, parent, external)
  }

  /** Appending events of existing nodes that are not launches keeps the log in order. */
  lemma AppendQuiet(log: seq<Event>, more: seq<Event>, n: nat, parent: seq<nat>, external: set<nat>)
    requires LogOk(log, n, parent, external)
    requires forall e :: e in more ==> !e.Launch? && e.node < n
    ensures LogOk(log + more, n, parent, external)
  {
    var l := log + more;
    forall i | 0 <= i < |l| && l[i].Launch? && l[i].node !in external && l[i].node < |parent|
      ensures FinishedBefore(l, i, parent[l[i].node])
    {
      if i < |log| {
        var j :| 0 <= j < i && j < |log| && log[j].Finished? && log[j].node == parent[log[i].node];
        assert l[j] == log[j];
      }
    }
  }

  /** Appending launches of children of a node whose Finished event is already logged keeps the ordering. */
  lemma AppendChildLaunches(log: seq<Event>, k: nat, p: nat, more: seq<Event>, n: nat, parent: seq<nat>, external: set<nat>)
    requires LogOk(log, n, parent, external)
    requires k < |log| && log[k].Finished? && log[k].node == p
    requires forall e :: e in more ==> e.Launch? && e.node < n && e.node < |parent| && parent[e.node] == p
    ensures LogOk(log + more, n, parent, external)
  {
    var l := log + more;
    forall i | 0 <= i < |l| && l[i].Launch? && l[i].node !in external && l[i].node < |parent|
      ensures FinishedBefore(l, i, parent[l[i].node])
    {
      if i >= |log| {
        assert l[i] in more;
        assert l[k] == log[k];
      } else {
        var j :| 0 <= j < i && j < |log| && log[j].Finished? && log[j].node == parent[log[i].node];
        assert l[j] == log[j];
      }
    }
  }

  /** A new last node, listed last among the children of p, keeps the shape. */
  lemma AddNodeKeepsShape(n: nat, hasOnStart: seq<bool>, hasOnFinish: seq<bool>, children: seq<seq<nat>>,
                          parent: seq<nat>, p: nat, onStart: bool, onFinish: bool)
    requires WellFormed(n, hasOnStart, hasOnFinish, children, parent, n) && p < n
    ensures WellFormed(n + 1, hasOnStart + [onStart], hasOnFinish + [onFinish],
                       children[p := children[p] + [n]] + [[]], parent + [p], n + 1)
  {
    var ch := children[p := children[p] + [n]] + [[]];
    var pa := parent + [p];
    forall q, i | 0 <= q < n + 1 && 0 <= i < |ch[q]|
      ensures q < ch[q][i] < n + 1 && pa[ch[q][i]] == q
    {
      if i < |children[q]| {
        assert ch[q][i] == children[q][i];
      }
    }
    forall q | 0 <= q < n + 1
      ensures Distinct(ch[q])
    {
      if q == p {
        forall i, j | 0 <= i < j < |ch[q]| ensures ch[q][i] != ch[q][j] {
          if j < |children[q]| {
            assert ch[q][i] == children[q][i] && ch[q][j] == children[q][j];
          } else {
            assert ch[q][i] == children[q][i];
          }
        }
      }
    }
  }

  /** A new node keeps the log in order: it has no events yet. */
  lemma AddNodeKeepsLog(log: seq<Event>, n: nat, parent: seq<nat>, p: nat, external: set<nat>)
    requires LogOk(log, n, parent, external) && |parent| == n
    ensures LogOk(log, n + 1, parent + [p], external)
  {
    var pa := parent + [p];
    forall i | 0 <= i < |log| && log[i].Launch? && log[i].node !in external && log[i].node < |pa|
      ensures FinishedBefore(log, i, pa[log[i].node])
    {
      assert log[i] in log;
      assert pa[log[i].node] == parent[log[i].node];
    }
  }

  /** A launch requested from outside keeps the log in order, the node being marked external. */
  lemma ExternalLaunchKeepsLog(log: seq<Event>, more: seq<Event>, node: nat, n: nat, parent: seq<nat>, external: set<nat>)
    requires LogOk(log, n, parent, external) && node < n
    requires forall e :: e in more ==> e.Launch? && e.node == node
    ensures LogOk(log + more, n, parent, external + {node})
  {
    var l := log + more;
    forall i | 0 <= i < |l| && l[i].Launch? && l[i].node !in external + {node} && l[i].node < |parent|
      ensures FinishedBefore(l, i, parent[l[i].node])
    {
      if i < |log| {
        var j :| 0 <= j < i && j < |log| && log[j].Finished? && log[j].node == parent[log[i].node];
        assert l[j] == log[j];
      }
    }
  }

  class ProcessTree {
    /** Per node: the Runnable it runs (mRunnable). */
    var runnables: seq<Runnable>
    /** Per node: whether mOnStart / mOnFinish is set. */
    var hasOnStart: seq<bool>
    var hasOnFinish: seq<bool>
    /** Per node: its children in insertion order (mChildren). */
    var children: seq<seq<nat>>
    /** Per node: the node whose mChildren holds it; the root is its own parent. */
    var parent: seq<nat>
    /** Per node: the state of its QProcess. */
    var states: seq<ProcessState>
    /** Everything the tree did, in order. */
    var log: seq<Event>
    /** The nodes start() was called on from outside the tree. */
    ghost var external: set<nat>

    ghost predicate Valid()
      reads this
    {
      WellFormed(|runnables|, hasOnStart, hasOnFinish, children, parent, |states|) &&
      LogOk(log, |runnables|, parent, external)
    }

    /** ProcessTree::ProcessTree / ProcessTree::create: a single idle node. */
    constructor (runnable: Runnable, onStart: bool, onFinish: bool)
      ensures Valid()
      ensures runnables == [runnable] && hasOnStart == [onStart] && hasOnFinish == [onFinish]
      ensures children == [[]] && parent == [0] && states == [NotRunning] && log == [] && external == {}
    {
      runnables := [runnable];
      hasOnStart := [onStart];
      hasOnFinish := [onFinish];
      children := [[]];
      parent := [0];
      states := [NotRunning];
      log := [];
      external := {};
    }

    /** ProcessTree::addChild: a new idle node appended to the children of p. */
    method AddChild(p: nat, runnable: Runnable, onStart: bool, onFinish: bool) returns (child: nat)
      requires Valid() && p < |runnables|
      modifies this
      ensures Valid()
      ensures child == old(|runnables|)
      ensures children == old(children)[p := old(children)[p] + [child]] + [[]]
      ensures runnables == old(runnables) + [runnable]
      ensures hasOnStart == old(hasOnStart) + [onStart] && hasOnFinish == old(hasOnFinish) + [onFinish]
      ensures parent == old(parent) + [p] && states == old(states) + [NotRunning]
      ensures log == old(log) && external == old(external)
    {
      child := |runnables|;
      AddNodeKeepsShape(child, hasOnStart, hasOnFinish, children, parent, p, onStart, onFinish);
      AddNodeKeepsLog(log, child, parent, p, external);
      children := children[p := children[p] + [child]] + [[]];
      runnables := runnables + [runnable];
      hasOnStart := hasOnStart + [onStart];
      hasOnFinish := hasOnFinish + [onFinish];
      parent := parent + [p];
      states := states + [NotRunning];
    }

    /** The body of ProcessTree::start: QProcess::start with the runnable's command and arguments. */
    method StartProcess(node: nat)
      requires node < |states| && node < |runnables|
      modifies this
      ensures runnables == old(runnables) && hasOnStart == old(hasOnStart) && hasOnFinish == old(hasOnFinish)
      ensures children == old(children) && parent == old(parent) && external == old(external)
      ensures states == StartOne(old(states), old(runnables), node).0
      ensures log == old(log) + StartOne(old(states), old(runnables), node).1
    {
      if states[node] == NotRunning {
        states := states[node := Starting];
        log := log + [Launch(node, runnables[node].command, runnables[node].arguments)];
      }
    }

    /** ProcessTree::start called from outside the tree: only this node's process is launched. */
    method Start(node: nat)
      requires Valid() && node < |runnables|
      modifies this
      ensures Valid()
      ensures states == StartOne(old(states), old(runnables), node).0
      ensures log == old(log) + StartOne(old(states), old(runnables), node).1
      ensures external == old(external) + {node}
      ensures runnables == old(runnables) && hasOnStart == old(hasOnStart) && hasOnFinish == old(hasOnFinish)
      ensures children == old(children) && parent == old(parent)
    {
      ExternalLaunchKeepsLog(log, StartOne(states, runnables, node).1, node, |runnables|, parent, external);
      external := external + {node};
      StartProcess(node);
    }

    /** ProcessTree::onProcessStarted: the runnable's hook first, then the start callback. */
    method OnProcessStarted(node: nat)
      requires Valid() && node < |runnables| && states[node] == Starting
      modifies this
      ensures Valid()
      ensures states == old(states)[node := Running]
      ensures log == old(log) + [Started(node)] + Logs(node, StartedMessages(runnables[node])) +
        (if hasOnStart[node] then [CallbackMessage(node, StartMessage(runnables[node].name))] else [])
      ensures runnables == old(runnables) && hasOnStart == old(hasOnStart) && hasOnFinish == old(hasOnFinish)
      ensures children == old(children) && parent == old(parent) && external == old(external)
    {
      states := states[node := Running];
      AppendQuiet(log, [Started(node)], |runnables|, parent, external);
      log := log + [Started(node)];
      var hooked := Logs(node, StartedMessages(runnables[node]));
      LogsAreQuiet(node, StartedMessages(runnables[node]));
      AppendQuiet(log, hooked, |runnables|, parent, external);
      log := log + hooked;
      if hasOnStart[node] {
        var message := CallbackMessage(node, StartMessage(runnables[node].name));
        AppendQuiet(log, [message], |runnables|, parent, external);
        log := log + [message];
      }
    }

    /**
     * ProcessTree::onProcessFinished: the runnable's hook, then the finish
     * callback, then start() on every child in insertion order. Nothing
     * here looks at the exit code or status except the callback text.
     */
    method OnProcessFinished(node: nat, exitCode: int, status: ExitStatus)
      requires Valid() && node < |runnables| && states[node] == Running
      modifies this
      ensures Valid()
      ensures runnables == old(runnables) && hasOnStart == old(hasOnStart) && hasOnFinish == old(hasOnFinish)
      ensures children == old(children) && parent == old(parent) && external == old(external)
      ensures var started := StartEach(old(states)[node := NotRunning], old(runnables), old(children)[node]);
        states == started.0 &&
        log == old(log) + [Finished(node, exitCode, status)] + Logs(node, FinishedMessages(old(runnables)[node])) +
          (if old(hasOnFinish)[node] then [CallbackMessage(node, FinishMessage(old(runnables)[node].name, exitCode, status))] else []) +
          started.1
    {
      states := states[node := NotRunning];
      var k := |log|;
      AppendQuiet(log, [Finished(node, exitCode, status)], |runnables|, parent, external);
      log := log + [Finished(node, exitCode, status)];
      var hooked := Logs(node, FinishedMessages(runnables[node]));
      LogsAreQuiet(node, FinishedMessages(runnables[node]));
      AppendQuiet(log, hooked, |runnables|, parent, external);
      log := log + hooked;
      if hasOnFinish[node] {
        var message := CallbackMessage(node, FinishMessage(runnables[node].name, exitCode, status));
        AppendQuiet(log, [message], |runnables|, parent, external);
        log := log + [message];
      }
      assert log[k] == Finished(node, exitCode, status);
      StartChildren(node, k);
    }

    /** The loop at the end of onProcessFinished: start() on every child of node, in insertion order. */
    method StartChildren(node: nat, k: nat)
      requires WellFormed(|runnables|, hasOnStart, hasOnFinish, children, parent, |states|)
      requires LogOk(log, |runnables|, parent, external)
      requires node < |runnables| && k < |log| && log[k].Finished? && log[k].node == node
      modifies this
      ensures runnables == old(runnables) && hasOnStart == old(hasOnStart) && hasOnFinish == old(hasOnFinish)
      ensures children == old(children) && parent == old(parent) && external == old(external)
      ensures states == StartEach(old(states), old(runnables), old(children)[node]).0
      ensures log == old(log) + StartEach(old(states), old(runnables), old(children)[node]).1
      ensures LogOk(log, |runnables|, parent, external)
    {
      var kids := children[node];
      ghost var s0 := states;
      ghost var base := log;
      var i := 0;
      assert kids[..i] == [];
      while i < |kids|
        invariant 0 <= i <= |kids|
        invariant runnables == old(runnables) && hasOnStart == old(hasOnStart) && hasOnFinish == old(hasOnFinish)
        invariant children == old(children) && parent == old(parent) && external == old(external)
        invariant |states| == |s0| && k < |log| && log[k] == base[k]
        invariant states == StartEach(s0, runnables, kids[..i]).0
        invariant log == base + StartEach(s0, runnables, kids[..i]).1
        invariant LogOk(log, |runnables|, parent, external)
      {
        var c := kids[i];
        assert kids[..i + 1][..i] == kids[..i];
        ghost var prev := log;
        ghost var step := StartOne(states, runnables, c);
        StartProcess(c);
        assert log == base + (StartEach(s0, runnables, kids[..i]).1 + step.1);
        assert c in children[node];
        AppendChildLaunches(prev, k, node, step.1, |runnables|, parent, external);
        i := i + 1;
      }
      assert kids[..i] == kids;
    }
  }

  /**
   * If start() was only ever called on the root from outside, no process is
   * launched before its parent has finished: every launch of a non-root node
   * comes after a Finished event of that node's parent.
   */
  lemma ChildrenStartAfterParentFinishes(t: ProcessTree)
    requires t.Valid() && t.external <= {0}
    ensures forall i :: 0 <= i < |t.log| && t.log[i].Launch? && t.log[i].node != 0 ==>
      exists j :: 0 <= j < i && t.log[j].Finished? && t.log[j].node == t.parent[t.log[i].node]
  {
    forall i | 0 <= i < |t.log| && t.log[i].Launch? && t.log[i].node != 0
      ensures exists j :: 0 <= j < i && t.log[j].Finished? && t.log[j].node == t.parent[t.log[i].node]
    {
      assert t.log[i] in t.log;
      assert FinishedBefore(t.log, i, t.parent[t.log[i].node]);
    }
  }
}
