/**
 Live upgrade (internal/server/upgrade.go): the old process hands its
 listeners, its terminals and its state to a new one, and rolls back when any
 step fails. The new process rebuilds the tree (internal/server/upgrade_recv.go).
 */
module Upgrade {
  import opened ClientTree
  import opened Protocol
  import opened ServerObjects
  import EventLoop

  /** The phases in the order a successful upgrade publishes them. */
  const ORDER: seq<string> := [
    "starting", "spawned", "sent_listener_fds", "stopped_accepting", "drained",
    "stopped_readloops", "sent_state", "sent_pty_fds", "ready", "shutting_down"]

  const FAILED := "failed"

  /** Everything that can go wrong. */
  datatype Step =
    | FindExecutable | MakeSocketpair | StartProcess | WrapSocket | ExtractListener(i: nat) | SendListeners
    | EncodeState | SendState | SendTerminals | SendHandoff | AwaitReady | HeardError
    | DuplicateTerminal(id: string) | ResumeReader(id: string)

  datatype Descriptor = ParentSocket | ChildSocket | Connection | Listener(i: nat) | TerminalCopy(id: string)

  datatype Child = NotStarted | Started | Killed

  datatype World = World(
    phases: seq<string>, noAccept: bool, parked: bool, running: set<string>,
    open: set<Descriptor>, child: Child, clientsClosed: bool)

  class Server {
    const tree: ServerTree
    const listeners: nat
    // The regions with a terminal of their own; native regions are not handed over.
    const terminals: set<string>

    var noAccept: bool
    // The event loop waits for the end of the upgrade, and the upgrade owns the tree.
    var parked: bool
    var running: set<string>
    var open: set<Descriptor>
    var child: Child
    var clientsClosed: bool
    ghost var phases: seq<string>
    // The store of a connected client that receives every broadcast.
    ghost var follower: Replica

    constructor (tree: ServerTree, listeners: nat, terminals: set<string>)
      requires tree.Valid() && !tree.inTx
      ensures this.tree == tree && this.listeners == listeners && this.terminals == terminals
      ensures State() == World([], false, false, terminals, {}, NotStarted, false) && Serving()
    {
      this.tree, this.listeners, this.terminals := tree, listeners, terminals;
      noAccept, parked, running, open, child, clientsClosed := false, false, terminals, {}, NotStarted, false;
      phases := [];
      follower := Replica(tree.View(), tree.version, true);
    }

    ghost function State(): World
      reads this
    {
      World(phases, noAccept, parked, running, open, child, clientsClosed)
    }

    /** Nothing is waiting to be sent: a client that got every broadcast holds the tree, under its version. */
    ghost predicate Published()
      reads this`follower, tree
    {
      tree.Valid() && tree.ops == [] && follower == Replica(tree.View(), tree.version, true)
    }

    /** Before an upgrade, and after one that was rolled back: serving as usual. */
    ghost predicate Serving()
      reads this, tree
    {
      Published() && !tree.inTx && !noAccept && !parked && !clientsClosed && open == {}
    }

    /** In the middle of an upgrade that has published the first k phases, from world w. */
    ghost predicate At(k: nat, w: World, version: nat)
      requires k <= |ORDER|
      reads this, tree
    {
      && Published() && !tree.inTx && tree.version == version + k
      && phases == w.phases + ORDER[..k]
      && noAccept == (k >= 4) && parked == (k >= 5)
      && running == (if k >= 6 then {} else w.running)
      && clientsClosed == false
    }

    /** Rolled back after the first k phases: one more message says so, and the server serves again. */
    ghost predicate RolledBack(k: nat, w: World, version: nat, fails: Step -> bool)
      requires k <= |ORDER|
      reads this, tree
    {
      && Published() && !tree.inTx && tree.version == version + k + 1
      && phases == w.phases + ORDER[..k] + [FAILED]
      && !noAccept && !parked && !clientsClosed
      && running == (if k >= 6 then (set id | id in terminals && !fails(ResumeReader(id))) else w.running)
      && child == (if k >= 2 then Killed else w.child)
    }

    // ── The event loop's part ────────────────────────────────────────────────

    method Broadcast(v: nat, ops: seq<TreeOp>)
      modifies this`follower
      ensures follower == if ops == [] then old(follower) else Receive(old(follower), Events(v, ops)).0
    {
      if |ops| > 0 {
        follower := Receive(follower, Events(v, ops)).0;
      }
    }

    /** Opens a transaction, changes the upgrade node and commits, with whatever transaction was open before. */
    method CommitUpgradeNode(node: UpgradeNode)
      requires Published()
      modifies this`follower, tree
      ensures Published() && !tree.inTx && tree.version == old(tree.version) + 1
      ensures tree.View() == old(tree.View()).(upgrade := node)
    {
      tree.StartTx();
      tree.SetUpgrade(node);
      UpgradeOnly(tree.base, tree.log, node);
      var v, ops := tree.CommitTx();
      Broadcast(v, ops);
    }

    /** The loop serves a phase request. A parked loop serves nothing. */
    method ServeSetUpgrade(node: UpgradeNode)
      requires Published() && !tree.inTx && !parked
      modifies this`follower, tree
      ensures Published() && !tree.inTx && tree.version == old(tree.version) + 1
      ensures tree.View() == old(tree.View()).(upgrade := node)
    {
      CommitUpgradeNode(node);
    }

    /** The loop takes the drain request like any other, and waits with the transaction it opened for it. */
    method Park()
      requires Published() && !tree.inTx && !parked
      modifies this`parked, tree
      ensures Published() && tree.inTx && parked
      ensures tree.version == old(tree.version) && tree.View() == old(tree.View())
    {
      tree.StartTx();
      parked := true;
    }

    /**
     The loop goes on where it waited and commits, whether or not its transaction is still open: nothing is left to
     hand out, so it broadcasts nothing, adds no version and loses no op.
     */
    method Unpark()
      requires Published() && parked
      modifies this`parked, this`follower, tree
      ensures Published() && !tree.inTx && !parked
      ensures tree.version == old(tree.version) && tree.View() == old(tree.View()) && follower == old(follower)
    {
      parked := false;
      var v, ops := tree.CommitTx();
      Broadcast(v, ops);
    }

    // ── The upgrade ──────────────────────────────────────────────────────────

    /**
     Publishes a phase. While the event loop runs it is asked to; while it is
     parked the upgrade must change the tree itself, or both would wait forever.
     The first time, the transaction the loop opened before parking is still open.
     */
    method SetUpgradePhase(direct: bool, phase: string, message: string)
      requires Published() && direct == parked && (!direct ==> !tree.inTx)
      modifies this`phases, this`follower, tree
      ensures Published() && !tree.inTx && tree.version == old(tree.version) + 1
      ensures tree.View() == old(tree.View()).(upgrade := UpgradeNode(true, phase, message))
      ensures phases == old(phases) + [phase]
    {
      var node := UpgradeNode(true, phase, message);
      if direct {
        CommitUpgradeNode(node);
      } else {
        ServeSetUpgrade(node);
      }
      phases := phases + [phase];
    }

    method Fail(message: string)
      requires Published() && !tree.inTx && !parked
      modifies this`phases, this`follower, tree
      ensures Published() && !tree.inTx && tree.version == old(tree.version) + 1
      ensures phases == old(phases) + [FAILED]
    {
      SetUpgradePhase(false, FAILED, message);
    }

    /** The next phase in order. */
    method Publish(k: nat, direct: bool, message: string, ghost w: World)
      requires Published() && direct == parked && (!direct ==> !tree.inTx)
      requires k < |ORDER| && phases == w.phases + ORDER[..k]
      modifies this`phases, this`follower, tree
      ensures Published() && !tree.inTx && tree.version == old(tree.version) + 1
      ensures phases == w.phases + ORDER[..k + 1]
    {
      SetUpgradePhase(direct, ORDER[k], message);
      assert ORDER[..k + 1] == ORDER[..k] + [ORDER[k]];
    }

    /** Up to a running new process, with one end of a socket pair to it. */
    method Spawn(newBin: string, fails: Step -> bool, ghost w: World, ghost version: nat) returns (ok: bool)
      requires Serving() && At(0, w, version) && child == w.child
      modifies this, tree
      ensures ok ==> At(2, w, version) && child == Started && open == {ParentSocket}
      ensures !ok ==> RolledBack(1, w, version, fails) && open == {}
    {
      Publish(0, false, "starting upgrade", w);
      if newBin == "" && fails(FindExecutable) {
        Fail("os.Executable");
        return false;
      }
      if fails(MakeSocketpair) {
        Fail("socketpair");
        return false;
      }
      open := open + {ParentSocket, ChildSocket};
      if fails(StartProcess) {
        open := open - {ParentSocket, ChildSocket};
        Fail("exec new binary");
        return false;
      }
      child := Started;
      open := open - {ChildSocket};
      Publish(1, false, "new process started", w);
      return true;
    }

    /** Hands the listeners over. What is opened here is closed when the upgrade returns. */
    method HandOverListeners(fails: Step -> bool, ghost w: World, ghost version: nat)
      returns (ok: bool, deferred: set<Descriptor>)
      requires At(2, w, version) && child == Started && open == {ParentSocket}
      modifies this, tree
      ensures open <= deferred
      ensures ok ==> At(3, w, version) && child == Started
      ensures !ok ==> RolledBack(2, w, version, fails)
    {
      deferred := {};
      open := open - {ParentSocket};
      if fails(WrapSocket) {
        child := Killed;
        Fail("file conn");
        return false, deferred;
      }
      open := open + {Connection};
      deferred := deferred + {Connection};
      for i := 0 to listeners
        invariant At(2, w, version) && child == Started && open == deferred
      {
        if fails(ExtractListener(i)) {
          child := Killed;
          Fail("extract listener FD");
          return false, deferred;
        }
        open := open + {Listener(i)};
        deferred := deferred + {Listener(i)};
      }
      if fails(SendListeners) {
        child := Killed;
        Fail("send listener FDs");
        return false, deferred;
      }
      Publish(2, false, "sent listener fds", w);
      return true, deferred;
    }

    /** Stops accepting, parks the event loop, and stops every terminal's actor, so that nothing changes any more. */
    method Freeze(ghost w: World, ghost version: nat)
      requires At(3, w, version) && child == Started && w.running <= terminals
      modifies this`noAccept, this`parked, this`running, this`phases, this`follower, tree
      ensures At(6, w, version)
    {
      noAccept := true;
      Publish(3, false, "stopped accepting new connections", w);
      Park();
      Publish(4, true, "event loop drained", w);
      StopActors();
      Publish(5, true, "stopped pty read loops", w);
    }

    method StopActors()
      requires running <= terminals
      modifies this`running
      ensures running == {}
    {
      var ids := terminals;
      while ids != {}
        invariant ids <= terminals && running <= ids
        decreases ids
      {
        var id :| id in ids;
        running := running - {id};
        ids := ids - {id};
      }
    }

    /** Copies every terminal's descriptor; the copies are closed when the upgrade returns. */
    method DetachTerminals(fails: Step -> bool) returns (copies: set<string>)
      modifies this`open
      ensures copies == set id | id in terminals && !fails(DuplicateTerminal(id))
      ensures open == old(open) + set id | id in copies :: TerminalCopy(id)
    {
      copies := {};
      var ids := terminals;
      while ids != {}
        invariant ids <= terminals
        invariant copies == set id | id in terminals && id !in ids && !fails(DuplicateTerminal(id))
        invariant open == old(open) + set id | id in copies :: TerminalCopy(id)
        decreases ids
      {
        var id :| id in ids;
        if !fails(DuplicateTerminal(id)) {
          copies := copies + {id};
          open := open + {TerminalCopy(id)};
        }
        ids := ids - {id};
      }
    }

    /** Undoes the freeze: accepts again, unparks the event loop, restarts the terminals' actors. */
    method ResumeAfterFailedUpgrade(fails: Step -> bool)
      requires Published() && parked
      modifies this`noAccept, this`parked, this`running, this`follower, tree
      ensures Published() && !tree.inTx && !noAccept && !parked
      ensures tree.version == old(tree.version) && tree.View() == old(tree.View())
      ensures running == old(running) + set id | id in terminals && !fails(ResumeReader(id))
    {
      noAccept := false;
      Unpark();
      var ids := terminals;
      while ids != {}
        invariant ids <= terminals
        invariant running == old(running) + set id | id in terminals && id !in ids && !fails(ResumeReader(id))
        modifies this`running
        decreases ids
      {
        var id :| id in ids;
        if !fails(ResumeReader(id)) {
          running := running + {id};
        }
        ids := ids - {id};
      }
    }

    method RollBack(message: string, fails: Step -> bool, ghost k: nat, ghost w: World, ghost version: nat)
      requires 6 <= k <= |ORDER| && At(k, w, version)
      modifies this`noAccept, this`parked, this`running, this`child, this`phases, this`follower, tree
      ensures RolledBack(k, w, version, fails)
    {
      ResumeAfterFailedUpgrade(fails);
      child := Killed;
      Fail(message);
    }

    /** Sends the state and the terminals, and waits for the new process to take over. */
    method HandOverState(fails: Step -> bool, ghost w: World, ghost version: nat) returns (ok: bool, ghost k: nat)
      requires At(6, w, version)
      modifies this`noAccept, this`parked, this`running, this`child, this`phases, this`follower, tree
      ensures ok ==> At(9, w, version)
      ensures !ok ==> 6 <= k <= 8 && RolledBack(k, w, version, fails)
    {
      if fails(EncodeState) {
        RollBack("marshal state", fails, 6, w, version);
        return false, 6;
      }
      if fails(SendState) {
        RollBack("send state", fails, 6, w, version);
        return false, 6;
      }
      Publish(6, true, "sent state", w);
      if fails(SendTerminals) {
        RollBack("send pty FDs", fails, 7, w, version);
        return false, 7;
      }
      Publish(7, true, "sent pty fds", w);
      if fails(SendHandoff) {
        RollBack("send handoff_complete", fails, 8, w, version);
        return false, 8;
      }
      if fails(AwaitReady) {
        RollBack("waiting for ready", fails, 8, w, version);
        return false, 8;
      }
      if fails(HeardError) {
        RollBack("new process error", fails, 8, w, version);
        return false, 8;
      }
      Publish(8, true, "new server is ready", w);
      return true, 9;
    }

    /** All stages, leaving the deferred descriptors to be closed by the caller. */
    method Stages(newBin: string, fails: Step -> bool, ghost w: World, ghost version: nat)
      returns (ok: bool, deferred: set<Descriptor>, ghost k: nat)
      requires Serving() && At(0, w, version) && child == w.child && w.running <= terminals
      modifies this, tree
      ensures open <= deferred
      ensures ok ==> At(9, w, version)
      ensures !ok ==> 1 <= k <= 8 && RolledBack(k, w, version, fails)
    {
      deferred := {};
      ok := Spawn(newBin, fails, w, version);
      if !ok {
        return false, deferred, 1;
      }
      ok, deferred := HandOverListeners(fails, w, version);
      if !ok {
        return false, deferred, 2;
      }
      Freeze(w, version);
      var copies := DetachTerminals(fails);
      deferred := deferred + set id | id in copies :: TerminalCopy(id);
      ok, k := HandOverState(fails, w, version);
    }

    /**
     Main result: wherever an upgrade fails, the phases published are a prefix
     of the declared order followed by one failure; a client in step before it
     is in step after it, as versions stay consecutive across the upgrade's own
     commits and the one the parked loop ends with; every descriptor is closed,
     the new process is killed, and the server serves again with every
     terminal's actor running whose reader resumes. Otherwise all phases are
     published in order and the clients are closed.
     */
    method HandleUpgrade(newBin: string, fails: Step -> bool) returns (ok: bool, ghost k: nat)
      requires Serving() && running <= terminals && child != Started
      modifies this, tree
      ensures open == {} && Published()
      ensures ok ==> phases == old(phases) + ORDER && clientsClosed && noAccept && parked
      ensures ok ==> tree.version == old(tree.version) + |ORDER|
      ensures !ok ==> Serving() && child != Started
      ensures !ok ==> 1 <= k <= 8 && RolledBack(k, old(State()), old(tree.version), fails)
    {
      ghost var w, version := State(), tree.version;
      assert phases == w.phases + ORDER[..0];
      var deferred;
      ok, deferred, k := Stages(newBin, fails, w, version);
      if !ok {
        open := open - deferred;
        assert RolledBack(k, w, version, fails);
        return;
      }
      Publish(9, true, "old server shutting down", w);
      clientsClosed := true;
      open := open - deferred;
    }
  }

  /** A transaction of one upgrade node replays as that node. */
  lemma UpgradeOnly(t: Tree, log: seq<Mutation>, node: UpgradeNode)
    requires log == [Mutation.SetUpgrade(node)]
    ensures AllSlashFree(log) && EmittedAll(t, log) != [] && MutateAll(t, log) == t.(upgrade := node)
  {
    assert log[1..] == [];
    assert EmittedAll(t, log) == Emitted(t, log[0]) + [];
    assert MutateAll(t, log) == MutateAll(Mutate(t, log[0]), []);
  }

  // ── The new process ────────────────────────────────────────────────────────

  /** The tree after restoring regions one by one, each into the session it names. */
  function Restored(t: Tree, rs: seq<Region>): Tree
    decreases |rs|
  {
    if rs == [] then t
    else Restored(Respawned(t, rs[0]), rs[1..])
  }

  function Respawned(t: Tree, r: Region): Tree {
    MutateAll(t, EventLoop.MutationsOf(t, EventLoop.SpawnRegion(r, r.session)))
  }

  /** Regions with different ids, none of them in t yet. */
  ghost predicate NewTo(t: Tree, rs: seq<Region>) {
    && (forall i :: 0 <= i < |rs| ==> rs[i].id !in t.regions)
    && (forall i, j :: 0 <= i < j < |rs| ==> rs[i].id != rs[j].id)
  }

  function NodesOf(rs: seq<Region>): map<string, RegionNode> {
    if rs == [] then map[] else map[rs[0].id := NodeOf(rs[0])] + NodesOf(rs[1..])
  }

  lemma RestoreOne(t: Tree, r: Region)
    requires EventLoop.Consistent(t) && r.id !in t.regions
    ensures EventLoop.Consistent(Respawned(t, r)) && Respawned(t, r).regions == t.regions[r.id := NodeOf(r)]
  {
    EventLoop.SpawnedTree(t, r, r.session);
    EventLoop.SpawnKeepsConsistent(t, r, r.session);
  }

  lemma NodesCons(regions: map<string, RegionNode>, rs: seq<Region>)
    requires rs != []
    ensures regions[rs[0].id := NodeOf(rs[0])] + NodesOf(rs[1..]) == regions + NodesOf(rs)
  {
  }

  lemma NewToTail(t: Tree, m: Tree, rs: seq<Region>)
    requires rs != [] && NewTo(t, rs) && m.regions.Keys == t.regions.Keys + {rs[0].id}
    ensures NewTo(m, rs[1..])
  {
  }

  lemma {:induction false} RestoredKeeps(t: Tree, rs: seq<Region>)
    requires EventLoop.Consistent(t) && NewTo(t, rs)
    ensures EventLoop.Consistent(Restored(t, rs)) && Restored(t, rs).regions == t.regions + NodesOf(rs)
    decreases |rs|
  {
    if rs != [] {
      RestoreOne(t, rs[0]);
      var m := Respawned(t, rs[0]);
      NewToTail(t, m, rs);
      RestoredKeeps(m, rs[1..]);
      NodesCons(t.regions, rs);
    } else {
      assert t.regions + map[] == t.regions;
    }
  }

  /**
   The new process ends with exactly the regions handed over, each as the old
   process knew it and listed once in the session it was in, and with exactly
   the sessions that still have a region, in whatever order the regions come.
   */
  lemma HandoffPreservesSessions(before: Tree, blank: Tree, rs: seq<Region>)
    requires blank.regions == map[] && blank.sessions == map[] && NewTo(blank, rs)
    requires forall id :: id in NodesOf(rs) ==> id in before.regions && NodesOf(rs)[id] == before.regions[id]
    ensures var u := Restored(blank, rs);
            && EventLoop.Consistent(u)
            && u.regions == NodesOf(rs)
            && (forall s :: s in u.sessions <==> exists id :: id in u.regions && before.regions[id].session == s)
  {
    RestoredKeeps(blank, rs);
    assert map[] + NodesOf(rs) == NodesOf(rs);
    SessionsOfRegions(Restored(blank, rs), before);
  }

  /** In a consistent tree the sessions are exactly those some region names. */
  lemma SessionsOfRegions(u: Tree, before: Tree)
    requires EventLoop.Consistent(u)
    requires forall id :: id in u.regions ==> id in before.regions && u.regions[id] == before.regions[id]
    ensures forall s :: s in u.sessions <==> exists id :: id in u.regions && before.regions[id].session == s
  {
    forall s | s in u.sessions ensures exists id :: id in u.regions && before.regions[id].session == s {
      assert EventLoop.SessionSound(u, s);
      var id := u.sessions[s].regionIDs[0];
      assert id in u.regions && before.regions[id].session == s;
    }
    forall id | id in u.regions ensures before.regions[id].session in u.sessions {
      assert EventLoop.RegionListed(u, id);
    }
  }
}
