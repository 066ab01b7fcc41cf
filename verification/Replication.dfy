/**
 Tree replication on one connection, as a state machine: transactions on the
 server, a bounded queue that refuses messages when full, a FIFO wire that may
 die, and the client's store. A run is any sequence of steps.
 Sources: internal/server/server_requests.go, internal/server/client.go,
 internal/tui/tree.go, internal/tui/model.go.
 */
module Replication {
  import opened Protocol
  import opened ClientTree
  import opened ServerObjects

  /**
   trees[v] is the server tree as committed at version v. queue is the client's
   writeCh, wire what writeLoop has written and the client has not read yet.
   lost records that a tree_events message was refused or discarded, or no
   snapshot was ever accepted, since the last accepted snapshot. requests are the
   client's resync requests on their way; skipped, served and unsent count the
   tree messages it read without applying them, the requests served, and those
   its own outbound queue had no room for.
   */
  datatype Sys = Sys(
    trees: seq<Tree>, cap: nat, queue: seq<Message>, wire: seq<Message>,
    store: Replica, dead: bool, lost: bool,
    requests: nat, skipped: nat, served: nat, unsent: nat)

  datatype Step =
    | Transaction(mutations: seq<Mutation>)  // one request, committed and broadcast
    | SendSnapshot                           // on connect
    | ServeResync                            // the server takes a resync request, if there is one
    | SendOther                              // any other frame taking a queue slot
    | WriteOne(fails: bool, warn: bool)      // writeLoop takes one message
    | ReadOne(room: bool)                    // the client handles one message; room to send a request

  function Version(s: Sys): nat
    requires |s.trees| > 0
  {
    |s.trees| - 1
  }

  function Current(s: Sys): Tree
    requires |s.trees| > 0
  {
    s.trees[|s.trees| - 1]
  }

  function Send(s: Sys, m: Message): Sys {
    if |s.queue| < s.cap then
      s.(queue := s.queue + [m], lost := if m.Snapshot? then s.dead else s.lost)
    else
      s.(lost := s.lost || m.Events?)
  }

  function Do(s: Sys, step: Step): Sys
    requires |s.trees| > 0
  {
    match step
    case Transaction(ms) =>
      var ops := EmittedAll(Current(s), ms);
      if ops == [] then s
      else Send(s.(trees := s.trees + [MutateAll(Current(s), ms)]), Events(|s.trees|, ops))
    case SendSnapshot => Send(s, Snapshot(Version(s), Current(s)))
    case SendOther => Send(s, Other)
    case WriteOne(fails, warn) =>
      if s.queue == [] then s
      else if s.dead || fails then s.(queue := s.queue[1..], dead := true, lost := true)
      else s.(queue := s.queue[1..], wire := s.wire + (if warn then [Other] else []) + [s.queue[0]])
    case ServeResync =>
      if s.requests == 0 then s
      else Send(s.(requests := s.requests - 1, served := s.served + 1), Snapshot(Version(s), Current(s)))
    case ReadOne(room) =>
      if s.wire == [] then s
      else
        var (store, accepted) := Receive(s.store, s.wire[0]);
        var skipped := s.skipped + if Skips(s.store, s.wire[0]) then 1 else 0;
        var t := s.(wire := s.wire[1..], store := store, skipped := skipped);
        if accepted then t else if room then t.(requests := t.requests + 1) else t.(unsent := t.unsent + 1)
  }

  /** A write takes the oldest message to the wire; a failed one ends the connection and loses what is queued. */
  lemma WriteDoes(s: Sys, fails: bool, warn: bool)
    requires |s.trees| > 0 && s.queue != []
    ensures var t := Do(s, WriteOne(fails, warn));
            && t.queue == s.queue[1..] && t.trees == s.trees && t.store == s.store
            && t.dead == (s.dead || fails) && (t.dead ==> t.lost && t.wire == s.wire)
            && (!t.dead ==> t.lost == s.lost && t.wire == s.wire + (if warn then [Other] else []) + [s.queue[0]])
  {
  }

  /** Serving a resync request takes it, and answers with the current tree unless the queue is full. */
  lemma ServeDoes(s: Sys)
    requires |s.trees| > 0 && s.requests > 0
    ensures var t := Do(s, ServeResync);
            && t.requests == s.requests - 1 && t.served == s.served + 1 && t.trees == s.trees && t.store == s.store
            && t.queue == s.queue + if |s.queue| < s.cap then [Snapshot(Version(s), Current(s))] else []
  {
  }

  /** A request that changed something adds a version, and its ops go out under that number or the loss is recorded. */
  lemma TransactionIsSent(s: Sys, ms: seq<Mutation>)
    requires |s.trees| > 0
    ensures var t, ops := Do(s, Transaction(ms)), EmittedAll(Current(s), ms);
            && Current(t) == MutateAll(Current(s), ms)
            && Version(t) == Version(s) + (if ops == [] then 0 else 1)
            && (ops != [] && |s.queue| < s.cap ==> t.queue == s.queue + [Events(Version(t), ops)])
            && (ops != [] && |s.queue| >= s.cap ==> t.queue == s.queue && t.lost)
  {
    if EmittedAll(Current(s), ms) == [] {
      SilentTransactionIsIdentity(Current(s), ms);
    }
  }

  /** A tree message that does not follow on from what the store holds. */
  predicate Skips(r: Replica, m: Message) {
    m.Events? && !(r.valid && m.version == r.version + 1)
  }

  function Run(s: Sys, steps: seq<Step>): (r: Sys)
    requires |s.trees| > 0
    ensures |r.trees| > 0
    decreases |steps|
  {
    if steps == [] then s else Run(Do(s, steps[0]), steps[1..])
  }

  ghost predicate Names(step: Step) {
    step.Transaction? ==> AllSlashFree(step.mutations)
  }

  ghost predicate AllNames(steps: seq<Step>) {
    forall i :: 0 <= i < |steps| ==> Names(steps[i])
  }

  /** A fresh connection: nothing queued, nothing received. */
  ghost predicate Init(s: Sys) {
    && |s.trees| > 0 && s.queue == [] && s.wire == [] && !s.store.valid && s.lost
    && s.requests == s.skipped == s.served == s.unsent == 0
  }

  function Pending(s: Sys): seq<Message> { s.wire + s.queue }

  function Drain(r: Replica, ms: seq<Message>): Replica
    decreases |ms|
  {
    if ms == [] then r else Drain(Receive(r, ms[0]).0, ms[1..])
  }

  ghost predicate Truthful(trees: seq<Tree>, m: Message) {
    match m
    case Snapshot(v, t) => v < |trees| && t == trees[v]
    case Events(v, ops) => 0 < v < |trees| && ApplyOps(trees[v - 1], ops) == trees[v]
    case Other => true
  }

  /** a may be handled before b without the version going backwards. */
  predicate NotAfter(a: Message, b: Message) {
    a.Other? || b.Other? || a.version <= b.version
  }

  predicate NotAhead(r: Replica, m: Message) {
    r.valid && !m.Other? ==> r.version <= m.version
  }

  ghost predicate Faithful(trees: seq<Tree>, r: Replica) {
    r.valid ==> r.version < |trees| && r.tree == trees[r.version]
  }

  /** Every pending message is true of the committed trees, and none is older than the store or an earlier one. */
  ghost predicate PendingOk(trees: seq<Tree>, r: Replica, p: seq<Message>) {
    && (forall i :: 0 <= i < |p| ==> Truthful(trees, p[i]) && NotAhead(r, p[i]))
    && (forall i, j :: 0 <= i < j < |p| ==> NotAfter(p[i], p[j]))
  }

  /** Every tree message read without being applied has made the client ask for a snapshot. */
  predicate Accounted(s: Sys) { s.skipped == s.requests + s.served + s.unsent }

  ghost predicate Inv(s: Sys) {
    && |s.trees| > 0
    && |s.queue| <= s.cap
    && (s.dead ==> s.lost)
    && Accounted(s)
    && Faithful(s.trees, s.store)
    && PendingOk(s.trees, s.store, Pending(s))
    && (!s.lost ==> Drain(s.store, Pending(s)) == Replica(Current(s), Version(s), true))
  }

  lemma {:induction false} DrainAppend(r: Replica, a: seq<Message>, b: seq<Message>)
    ensures Drain(r, a + b) == Drain(Drain(r, a), b)
    decreases |a|
  {
    if a == [] {
      assert a + b == b;
    } else {
      assert (a + b)[1..] == a[1..] + b;
      DrainAppend(Receive(r, a[0]).0, a[1..], b);
    }
  }

  lemma DrainOne(r: Replica, a: seq<Message>, m: Message)
    ensures Drain(r, a + [m]) == Receive(Drain(r, a), m).0
  {
    DrainAppend(r, a, [m]);
    assert [m][1..] == [];
  }

  /** Queueing a truthful message of the current version keeps the invariant, whether or not it fits. */
  lemma SendKeeps(s: Sys, m: Message)
    requires Inv(s.(lost := true)) && (s.dead ==> s.lost)
    requires Truthful(s.trees, m) && (!m.Other? ==> m.version == Version(s))
    requires !s.lost && !m.Events? ==> Inv(s)
    requires !s.lost && m.Events? ==>
               && m.version > 0
               && Drain(s.store, Pending(s)) == Replica(s.trees[m.version - 1], m.version - 1, true)
    ensures Inv(Send(s, m))
  {
    var t := Send(s, m);
    if |s.queue| < s.cap {
      var p := Pending(s);
      assert Pending(t) == p + [m];
      assert p == Pending(s.(lost := true));
      DrainOne(s.store, p, m);
      forall i | 0 <= i < |Pending(t)|
        ensures Truthful(t.trees, Pending(t)[i]) && NotAhead(t.store, Pending(t)[i])
      {
        if i < |p| { assert Pending(t)[i] == p[i]; }
      }
      forall i, j | 0 <= i < j < |Pending(t)|
        ensures NotAfter(Pending(t)[i], Pending(t)[j])
      {
        assert Truthful(s.trees, p[i]);
        if j < |p| { assert NotAfter(p[i], p[j]); }
      }
    } else {
      assert Pending(t) == Pending(s.(lost := true));
    }
  }

  lemma TruthSurvives(trees: seq<Tree>, u: Tree, r: Replica, p: seq<Message>)
    requires PendingOk(trees, r, p)
    ensures PendingOk(trees + [u], r, p)
  {
    forall i | 0 <= i < |p| ensures Truthful(trees + [u], p[i]) {
      assert Truthful(trees, p[i]);
    }
  }

  /** Committing u and broadcasting ops that turn the current tree into it. */
  lemma CommitKeeps(s: Sys, u: Tree, ops: seq<TreeOp>)
    requires Inv(s) && ApplyOps(Current(s), ops) == u
    ensures Inv(Send(s.(trees := s.trees + [u]), Events(|s.trees|, ops)))
  {
    var t := s.(trees := s.trees + [u]);
    TruthSurvives(s.trees, u, s.store, Pending(s));
    assert Pending(t) == Pending(s) && Pending(t.(lost := true)) == Pending(s);
    assert t.trees[|s.trees| - 1] == Current(s);
    SendKeeps(t, Events(|s.trees|, ops));
  }

  lemma TransactionKeeps(s: Sys, ms: seq<Mutation>)
    requires Inv(s) && AllSlashFree(ms)
    ensures Inv(Do(s, Transaction(ms)))
  {
    TransactionReplays(Current(s), ms);
    CommitKeeps(s, MutateAll(Current(s), ms), EmittedAll(Current(s), ms));
  }

  lemma DropKeepsOrder(trees: seq<Tree>, r: Replica, p: seq<Message>, k: nat)
    requires PendingOk(trees, r, p) && k < |p|
    ensures PendingOk(trees, r, p[..k] + p[k + 1..])
  {
    var q := p[..k] + p[k + 1..];
    forall i, j | 0 <= i < j < |q| ensures NotAfter(q[i], q[j]) {
      assert q[i] == p[if i < k then i else i + 1] && q[j] == p[if j < k then j else j + 1];
    }
  }

  lemma InsertOtherKeepsOrder(trees: seq<Tree>, r: Replica, p: seq<Message>, k: nat)
    requires PendingOk(trees, r, p) && k <= |p|
    ensures PendingOk(trees, r, p[..k] + [Other] + p[k..])
    ensures Drain(r, p[..k] + [Other] + p[k..]) == Drain(r, p)
  {
    var q := p[..k] + [Other] + p[k..];
    forall i, j | 0 <= i < j < |q| ensures NotAfter(q[i], q[j]) {
      if i != k && j != k {
        assert q[i] == p[if i < k then i else i - 1] && q[j] == p[if j < k then j else j - 1];
      }
    }
    assert p == p[..k] + p[k..];
    DrainAppend(r, p[..k], p[k..]);
    DrainAppend(r, p[..k] + [Other], p[k..]);
    DrainOne(r, p[..k], Other);
  }

  /** What one write does to the pending messages: it loses the oldest queued one, or puts a frame before it. */
  lemma WritePending(s: Sys, fails: bool, warn: bool)
    requires |s.trees| > 0 && s.queue != []
    ensures var p, k := Pending(s), |s.wire|;
            Pending(Do(s, WriteOne(fails, warn))) ==
              if s.dead || fails then p[..k] + p[k + 1..]
              else if warn then p[..k] + [Other] + p[k..] else p
  {
    assert s.queue == [s.queue[0]] + s.queue[1..];
  }

  /** A change that leaves the trees and the store alone only has to keep the pending messages in order. */
  lemma SameStoreKeeps(s: Sys, t: Sys)
    requires Inv(s) && t.trees == s.trees && t.store == s.store && |t.queue| <= t.cap && (t.dead ==> t.lost)
    requires Accounted(t)
    requires PendingOk(s.trees, s.store, Pending(t))
    requires !t.lost ==> !s.lost && Drain(s.store, Pending(t)) == Drain(s.store, Pending(s))
    ensures Inv(t)
  {
  }

  lemma WriteKeeps(s: Sys, fails: bool, warn: bool)
    requires Inv(s)
    ensures Inv(Do(s, WriteOne(fails, warn)))
  {
    if s.queue == [] { return; }
    var t, p, k := Do(s, WriteOne(fails, warn)), Pending(s), |s.wire|;
    WritePending(s, fails, warn);
    if s.dead || fails {
      DropKeepsOrder(s.trees, s.store, p, k);
    } else if warn {
      InsertOtherKeepsOrder(s.trees, s.store, p, k);
    }
    SameStoreKeeps(s, t);
  }

  /** Handling the oldest pending message keeps the store faithful, and the rest still in order after it. */
  lemma ReceiveKeeps(trees: seq<Tree>, r: Replica, p: seq<Message>)
    requires PendingOk(trees, r, p) && Faithful(trees, r) && p != []
    ensures var q := Receive(r, p[0]).0;
            Faithful(trees, q) && PendingOk(trees, q, p[1..]) && (r.valid ==> q.valid && r.version <= q.version)
  {
    assert Truthful(trees, p[0]) && NotAhead(r, p[0]);
    var q := Receive(r, p[0]).0;
    forall i | 0 <= i < |p| - 1 ensures Truthful(trees, p[1..][i]) && NotAhead(q, p[1..][i]) {
      assert NotAfter(p[0], p[i + 1]) && NotAhead(r, p[i + 1]) && Truthful(trees, p[i + 1]);
    }
  }

  lemma ReadAdvances(s: Sys, t: Sys)
    requires Inv(s) && t.trees == s.trees && t.queue == s.queue && t.cap == s.cap && t.dead == s.dead
    requires t.lost == s.lost && Accounted(t) && Pending(s) != []
    requires Pending(t) == Pending(s)[1..] && t.store == Receive(s.store, Pending(s)[0]).0
    ensures Inv(t) && (s.store.valid ==> t.store.valid && s.store.version <= t.store.version)
  {
    ReceiveKeeps(s.trees, s.store, Pending(s));
  }

  lemma ReadKeeps(s: Sys, room: bool)
    requires Inv(s)
    ensures Inv(Do(s, ReadOne(room)))
    ensures var r := Do(s, ReadOne(room)).store; s.store.valid ==> r.valid && s.store.version <= r.version
  {
    if s.wire == [] { return; }
    var t := Do(s, ReadOne(room));
    assert Pending(t) == Pending(s)[1..] && t.store == Receive(s.store, Pending(s)[0]).0;
    ReadAdvances(s, t);
  }

  lemma OtherKeeps(s: Sys)
    requires Inv(s)
    ensures Inv(Do(s, SendOther))
  {
    assert Pending(s.(lost := true)) == Pending(s);
    SendKeeps(s, Other);
  }

  lemma ConnectKeeps(s: Sys)
    requires Inv(s)
    ensures Inv(Do(s, SendSnapshot))
  {
    assert Pending(s.(lost := true)) == Pending(s);
    SendKeeps(s, Snapshot(Version(s), Current(s)));
  }

  lemma ServeKeeps(s: Sys)
    requires Inv(s)
    ensures Inv(Do(s, ServeResync))
  {
    if s.requests > 0 {
      var t := s.(requests := s.requests - 1, served := s.served + 1);
      assert Pending(t.(lost := true)) == Pending(s) && Pending(t) == Pending(s);
      SendKeeps(t, Snapshot(Version(s), Current(s)));
    }
  }

  lemma StepKeeps(s: Sys, step: Step)
    requires Inv(s) && Names(step)
    ensures Inv(Do(s, step))
    ensures s.trees <= Do(s, step).trees
    ensures s.store.valid ==> Do(s, step).store.valid && s.store.version <= Do(s, step).store.version
  {
    match step
    case WriteOne(fails, warn) => WriteKeeps(s, fails, warn);
    case ReadOne(room) => ReadKeeps(s, room);
    case _ => SendingKeeps(s, step);
  }

  lemma SendingKeeps(s: Sys, step: Step)
    requires Inv(s) && Names(step) && !step.WriteOne? && !step.ReadOne?
    ensures Inv(Do(s, step))
    ensures s.trees <= Do(s, step).trees
    ensures s.store.valid ==> Do(s, step).store.valid && s.store.version <= Do(s, step).store.version
  {
    match step
    case Transaction(ms) => TransactionKeeps(s, ms);
    case SendSnapshot => ConnectKeeps(s);
    case ServeResync => ServeKeeps(s);
    case SendOther => OtherKeeps(s);
  }

  /** Every run keeps the invariant, only ever adds versions, and never moves a valid store backwards. */
  lemma {:induction false} RunKeeps(s: Sys, steps: seq<Step>)
    requires Inv(s) && AllNames(steps)
    ensures Inv(Run(s, steps))
    ensures s.trees <= Run(s, steps).trees
    ensures s.store.valid ==> Run(s, steps).store.valid && s.store.version <= Run(s, steps).store.version
    decreases |steps|
  {
    if steps != [] {
      StepKeeps(s, steps[0]);
      RunKeeps(Do(s, steps[0]), steps[1..]);
    }
  }

  /** Main result: after any run, a valid store at version v holds the server tree of version v. */
  lemma ReplicaIsFaithful(s: Sys, steps: seq<Step>)
    requires Init(s) && AllNames(steps)
    ensures var r := Run(s, steps);
            r.store.valid ==> r.store.version < |r.trees| && r.store.tree == r.trees[r.store.version]
  {
    assert Inv(s);
    RunKeeps(s, steps);
  }

  /** When nothing was lost since the last accepted snapshot, a drained connection holds the current tree. */
  lemma DrainedReplicaIsCurrent(s: Sys, steps: seq<Step>)
    requires Init(s) && AllNames(steps)
    requires var r := Run(s, steps); !r.lost && r.wire == [] && r.queue == []
    ensures var r := Run(s, steps); r.store == Replica(Current(r), Version(r), true)
  {
    assert Inv(s);
    RunKeeps(s, steps);
  }

  /** A step that turns away no tree message and loses none on the way. */
  predicate Lossless(s: Sys, step: Step)
    requires |s.trees| > 0
  {
    match step
    case Transaction(ms) => EmittedAll(Current(s), ms) == [] || |s.queue| < s.cap
    case WriteOne(fails, _) => !fails
    case _ => true
  }

  predicate AllLossless(s: Sys, steps: seq<Step>)
    requires |s.trees| > 0
    decreases |steps|
  {
    steps == [] || (Lossless(s, steps[0]) && AllLossless(Do(s, steps[0]), steps[1..]))
  }

  lemma {:induction false} LosslessKeeps(s: Sys, steps: seq<Step>)
    requires |s.trees| > 0 && !s.dead && !s.lost && AllLossless(s, steps)
    ensures !Run(s, steps).dead && !Run(s, steps).lost
    decreases |steps|
  {
    if steps != [] {
      LosslessKeeps(Do(s, steps[0]), steps[1..]);
    }
  }

  /**
   Over every run: each tree message read without being applied has made the
   client ask for a snapshot, and the request is on its way, served, or lost to
   the client's own full queue. Such a message changes nothing in the store.
   */
  lemma SkippedAsksAgain(s: Sys, steps: seq<Step>, room: bool)
    requires Init(s) && AllNames(steps)
    ensures var r := Run(s, steps);
            && r.skipped == r.requests + r.served + r.unsent
            && (r.wire != [] && Skips(r.store, r.wire[0]) ==>
                  var t := Do(r, ReadOne(room));
                  && t.store == r.store
                  && t.requests == r.requests + (if room then 1 else 0))
            && (r.wire != [] && r.wire[0].Events? && !Skips(r.store, r.wire[0]) ==>
                  var t := Do(r, ReadOne(room));
                  t.store.version == r.wire[0].version && t.requests == r.requests)
  {
    assert Inv(s);
    RunKeeps(s, steps);
  }

  lemma HealsFrom(r: Sys, more: seq<Step>)
    requires Inv(r) && r.requests > 0 && !r.dead && |r.queue| < r.cap
    requires AllNames(more) && AllLossless(Do(r, ServeResync), more)
    requires var u := Run(Do(r, ServeResync), more); u.wire == [] && u.queue == []
    ensures var u := Run(Do(r, ServeResync), more); u.store == Replica(Current(u), Version(u), true)
  {
    StepKeeps(r, ServeResync);
    LosslessKeeps(Do(r, ServeResync), more);
    RunKeeps(Do(r, ServeResync), more);
  }

  /**
   A served resync request heals any live connection with room for the answer,
   whatever was lost before and whatever is still queued: once the connection
   drains without losing more, however much more is committed meanwhile, the
   store is current.
   */
  lemma ResyncHeals(s: Sys, steps: seq<Step>, more: seq<Step>)
    requires Init(s) && AllNames(steps) && AllNames(more)
    requires var r := Run(s, steps);
             r.requests > 0 && !r.dead && |r.queue| < r.cap && AllLossless(Do(r, ServeResync), more)
    requires var u := Run(Do(Run(s, steps), ServeResync), more); u.wire == [] && u.queue == []
    ensures var u := Run(Do(Run(s, steps), ServeResync), more); u.store == Replica(Current(u), Version(u), true)
  {
    assert Inv(s);
    RunKeeps(s, steps);
    HealsFrom(Run(s, steps), more);
  }

  /** A gap heals itself: the message after it is skipped, which asks for the snapshot that brings the store back. */
  lemma GapHeals(s: Sys, steps: seq<Step>, more: seq<Step>)
    requires Init(s) && AllNames(steps) && AllNames(more)
    requires var r := Run(s, steps);
             && r.wire != [] && Skips(r.store, r.wire[0]) && !r.dead && |r.queue| < r.cap
             && AllLossless(Do(Do(r, ReadOne(true)), ServeResync), more)
    requires var u := Run(Do(Do(Run(s, steps), ReadOne(true)), ServeResync), more); u.wire == [] && u.queue == []
    ensures var u := Run(Do(Do(Run(s, steps), ReadOne(true)), ServeResync), more);
            u.store == Replica(Current(u), Version(u), true)
  {
    assert Inv(s);
    RunKeeps(s, steps);
    GapHealsFrom(Run(s, steps), more);
  }

  lemma GapHealsFrom(r: Sys, more: seq<Step>)
    requires Inv(r) && AllNames(more)
    requires r.wire != [] && Skips(r.store, r.wire[0]) && !r.dead && |r.queue| < r.cap
    requires AllLossless(Do(Do(r, ReadOne(true)), ServeResync), more)
    requires var u := Run(Do(Do(r, ReadOne(true)), ServeResync), more); u.wire == [] && u.queue == []
    ensures var u := Run(Do(Do(r, ReadOne(true)), ServeResync), more); u.store == Replica(Current(u), Version(u), true)
  {
    StepKeeps(r, ReadOne(true));
    HealsFrom(Do(r, ReadOne(true)), more);
  }
}
