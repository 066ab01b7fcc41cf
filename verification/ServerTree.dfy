/**
 The server's object tree (internal/server/tree.go): typed mutators that emit
 ops while a transaction is open, and the proof that the emitted ops replay.
 */
module ServerObjects {
  import opened Text
  import opened Protocol
  import opened ClientTree

  // ── Mutations as values ────────────────────────────────────────────────────

  datatype Mutation =
    | SetRegion(region: RegionNode)
    | DeleteRegion(id: string)
    | EnsureSession(name: string)
    | DeleteSession(name: string)
    | AddRegionToSession(session: string, regionID: string)
    | RemoveRegionFromSession(session: string, regionID: string)
    | SetProgram(program: ProgramNode)
    | DeleteProgram(name: string)
    | AddClient(client: nat)
    | DeleteClient(client: nat)
    | SetClientIdentity(client: nat, identity: Identity)
    | SetClientSubscription(client: nat, regionID: string)
    | SetClientSession(client: nat, session: string)
    | SetUpgrade(upgrade: UpgradeNode)

  datatype Identity = Identity(hostname: string, username: string, pid: int, process: string)

  function NewClientNode(client: nat): ClientNode {
    ClientNode(Decimal(client), "", "", 0, "", "", "")
  }

  function WithIdentity(n: ClientNode, i: Identity): ClientNode {
    n.(hostname := i.hostname, username := i.username, pid := i.pid, process := i.process)
  }

  /** What a mutator does to the tree. */
  function Mutate(t: Tree, m: Mutation): Tree {
    match m
    case SetRegion(n) => t.(regions := t.regions[n.id := n])
    case DeleteRegion(id) => t.(regions := t.regions - {id})
    case EnsureSession(name) =>
      if name in t.sessions then t else t.(sessions := t.sessions[name := SessionNode(name, [])])
    case DeleteSession(name) => t.(sessions := t.sessions - {name})
    case AddRegionToSession(name, id) =>
      if name !in t.sessions then t else
        var s := t.sessions[name];
        t.(sessions := t.sessions[name := s.(regionIDs := s.regionIDs + [id])])
    case RemoveRegionFromSession(name, id) =>
      if name !in t.sessions then t else
        var s := t.sessions[name];
        t.(sessions := t.sessions[name := s.(regionIDs := RemoveFirst(s.regionIDs, id))])
    case SetProgram(n) => t.(programs := t.programs[n.name := n])
    case DeleteProgram(name) => t.(programs := t.programs - {name})
    case AddClient(c) => t.(clients := t.clients[Decimal(c) := NewClientNode(c)])
    case DeleteClient(c) => t.(clients := t.clients - {Decimal(c)})
    case SetClientIdentity(c, _) => MutateClient(t, c, m)
    case SetClientSubscription(c, _) => MutateClient(t, c, m)
    case SetClientSession(c, _) => MutateClient(t, c, m)
    case SetUpgrade(u) => t.(upgrade := u)
  }

  predicate EditsClient(m: Mutation) {
    m.SetClientIdentity? || m.SetClientSubscription? || m.SetClientSession?
  }

  function EditedClient(n: ClientNode, m: Mutation): ClientNode
    requires EditsClient(m)
  {
    match m
    case SetClientIdentity(_, i) => WithIdentity(n, i)
    case SetClientSubscription(_, id) => n.(subscribedRegionID := id)
    case SetClientSession(_, s) => n.(session := s)
  }

  function MutateClient(t: Tree, c: nat, m: Mutation): Tree
    requires EditsClient(m)
  {
    var cid := Decimal(c);
    if cid !in t.clients then t else t.(clients := t.clients[cid := EditedClient(t.clients[cid], m)])
  }

  // ── What each mutation does ────────────────────────────────────────────────

  /** A list edit keeps every session, and the names in them. */
  ghost predicate ListNow(f: map<string, SessionNode>, g: map<string, SessionNode>, name: string, ids: seq<string>) {
    if name in f then Now(f, g, name, SessionNode(f[name].name, ids)) else f == g
  }

  /** Editing a client that is not in the tree does nothing. */
  ghost predicate ClientNow(f: map<string, ClientNode>, g: map<string, ClientNode>, key: string, node: ClientNode) {
    if key in f then Now(f, g, key, node) else f == g
  }

  /** What mutation m of tree t leads to: one node, or one list, in one map of the tree, and nothing else. */
  ghost predicate Does(t: Tree, m: Mutation, u: Tree) {
    match m
    case SetRegion(n) => u == t.(regions := u.regions) && Now(t.regions, u.regions, n.id, n)
    case DeleteRegion(id) => u == t.(regions := u.regions) && Gone(t.regions, u.regions, id)
    case EnsureSession(name) =>
      u == t.(sessions := u.sessions)
      && Now(t.sessions, u.sessions, name, if name in t.sessions then t.sessions[name] else SessionNode(name, []))
    case DeleteSession(name) => u == t.(sessions := u.sessions) && Gone(t.sessions, u.sessions, name)
    case AddRegionToSession(name, id) =>
      u == t.(sessions := u.sessions)
      && ListNow(t.sessions, u.sessions, name, if name in t.sessions then t.sessions[name].regionIDs + [id] else [])
    case RemoveRegionFromSession(name, id) =>
      u == t.(sessions := u.sessions)
      && ListNow(t.sessions, u.sessions, name,
                 if name in t.sessions then RemoveFirst(t.sessions[name].regionIDs, id) else [])
    case SetProgram(n) => u == t.(programs := u.programs) && Now(t.programs, u.programs, n.name, n)
    case DeleteProgram(name) => u == t.(programs := u.programs) && Gone(t.programs, u.programs, name)
    case AddClient(c) =>
      u == t.(clients := u.clients)
      && Now(t.clients, u.clients, Decimal(c), ClientNode(Decimal(c), "", "", 0, "", "", ""))
    case DeleteClient(c) => u == t.(clients := u.clients) && Gone(t.clients, u.clients, Decimal(c))
    case SetClientIdentity(c, i) =>
      u == t.(clients := u.clients) && (Decimal(c) in t.clients ==> Identified(t, u, Decimal(c), i))
      && (Decimal(c) !in t.clients ==> u == t)
    case SetClientSubscription(c, id) =>
      u == t.(clients := u.clients)
      && ClientNow(t.clients, u.clients, Decimal(c), NodeAt(t, c).(subscribedRegionID := id))
    case SetClientSession(c, name) =>
      u == t.(clients := u.clients)
      && ClientNow(t.clients, u.clients, Decimal(c), NodeAt(t, c).(session := name))
    case SetUpgrade(n) => u == t.(upgrade := n)
  }

  function NodeAt(t: Tree, c: nat): ClientNode {
    if Decimal(c) in t.clients then t.clients[Decimal(c)] else ClientNode("", "", "", 0, "", "", "")
  }

  /** A client says who it is: what it is and watches stays. */
  ghost predicate Identified(t: Tree, u: Tree, key: string, i: Identity)
    requires key in t.clients
  {
    && key in u.clients && SameBut(t.clients, u.clients, key)
    && u.clients[key].hostname == i.hostname && u.clients[key].username == i.username
    && u.clients[key].pid == i.pid && u.clients[key].process == i.process
    && u.clients[key].id == t.clients[key].id && u.clients[key].session == t.clients[key].session
    && u.clients[key].subscribedRegionID == t.clients[key].subscribedRegionID
  }

  lemma MutationDoes(t: Tree, m: Mutation)
    ensures Does(t, m, Mutate(t, m))
  {
  }

  function SetOp(path: string, value: Json): TreeOp { TreeOp("set", path, value, Absent) }
  function DeleteOp(path: string): TreeOp { TreeOp("delete", path, Absent, Absent) }

  /** The ops a mutator emits when a transaction is open. */
  function Emitted(t: Tree, m: Mutation): seq<TreeOp> {
    match m
    case SetRegion(n) => [SetOp(NodePath("regions", n.id), OfRegion(n))]
    case DeleteRegion(id) => [DeleteOp(NodePath("regions", id))]
    case EnsureSession(name) =>
      if name in t.sessions then [] else [SetOp(NodePath("sessions", name), OfSession(SessionNode(name, [])))]
    case DeleteSession(name) => [DeleteOp(NodePath("sessions", name))]
    case AddRegionToSession(name, id) =>
      if name !in t.sessions then []
      else [TreeOp("add", ListPath("sessions", name, "region_ids"), OfString(id), Absent)]
    case RemoveRegionFromSession(name, id) =>
      if name !in t.sessions then []
      else [TreeOp("remove", ListPath("sessions", name, "region_ids"), Absent, OfString(id))]
    case SetProgram(n) => [SetOp(NodePath("programs", n.name), OfProgram(n))]
    case DeleteProgram(name) => [DeleteOp(NodePath("programs", name))]
    case AddClient(c) => [SetOp(NodePath("clients", Decimal(c)), OfClient(NewClientNode(c)))]
    case DeleteClient(c) => [DeleteOp(NodePath("clients", Decimal(c)))]
    case SetClientIdentity(c, _) => EmittedForClient(t, c, m)
    case SetClientSubscription(c, _) => EmittedForClient(t, c, m)
    case SetClientSession(c, _) => EmittedForClient(t, c, m)
    case SetUpgrade(u) => [SetOp("/upgrade", OfUpgrade(u))]
  }

  function EmittedForClient(t: Tree, c: nat, m: Mutation): seq<TreeOp>
    requires EditsClient(m)
  {
    var cid := Decimal(c);
    if cid !in t.clients then [] else [SetOp(NodePath("clients", cid), OfClient(EditedClient(t.clients[cid], m)))]
  }

  function MutateAll(t: Tree, ms: seq<Mutation>): Tree
    decreases |ms|
  {
    if ms == [] then t else MutateAll(Mutate(t, ms[0]), ms[1..])
  }

  function EmittedAll(t: Tree, ms: seq<Mutation>): seq<TreeOp>
    decreases |ms|
  {
    if ms == [] then [] else Emitted(t, ms[0]) + EmittedAll(Mutate(t, ms[0]), ms[1..])
  }

  lemma {:induction false} MutateAllAppend(t: Tree, a: seq<Mutation>, b: seq<Mutation>)
    ensures MutateAll(t, a + b) == MutateAll(MutateAll(t, a), b)
    ensures EmittedAll(t, a + b) == EmittedAll(t, a) + EmittedAll(MutateAll(t, a), b)
    decreases |a|
  {
    if a == [] {
      assert a + b == b;
    } else {
      assert (a + b)[1..] == a[1..] + b;
      MutateAllAppend(Mutate(t, a[0]), a[1..], b);
    }
  }

  // ── Replay ─────────────────────────────────────────────────────────────────

  /** The name a mutation builds its op path from. */
  function PathName(m: Mutation): string {
    match m
    case SetRegion(n) => n.id
    case DeleteRegion(id) => id
    case EnsureSession(name) => name
    case DeleteSession(name) => name
    case AddRegionToSession(name, _) => name
    case RemoveRegionFromSession(name, _) => name
    case SetProgram(n) => n.name
    case DeleteProgram(name) => name
    case AddClient(c) => Decimal(c)
    case DeleteClient(c) => Decimal(c)
    case SetClientIdentity(c, _) => Decimal(c)
    case SetClientSubscription(c, _) => Decimal(c)
    case SetClientSession(c, _) => Decimal(c)
    case SetUpgrade(_) => ""
  }

  /** A caller can check this before mutating: the name the op path is built from has no '/'. */
  predicate SlashFree(m: Mutation) { '/' !in PathName(m) }

  ghost predicate AllSlashFree(ms: seq<Mutation>) {
    forall i :: 0 <= i < |ms| ==> SlashFree(ms[i])
  }

  /** Client ids are decimal numerals, so a mutation of a client always replays. */
  lemma ClientMutationsAreSlashFree(m: Mutation)
    requires m.AddClient? || m.DeleteClient? || EditsClient(m)
    ensures SlashFree(m)
  {
    DecimalDigits(m.client);
  }

  lemma UpgradePath()
    ensures SplitPath("/upgrade") == ["upgrade"]
  {
    SplitWhole("upgrade", '/');
    assert "/upgrade"[1..] == "upgrade";
  }

  lemma ApplySingle(t: Tree, op: TreeOp)
    ensures ApplyOps(t, [op]) == ApplyOp(t, op)
  {
    assert [op][1..] == [];
  }

  /** The kind of node a mutation's path names, and the name itself. */
  function PathKind(m: Mutation): string {
    match m
    case SetRegion(_) => "regions"
    case DeleteRegion(_) => "regions"
    case SetProgram(_) => "programs"
    case DeleteProgram(_) => "programs"
    case AddClient(_) => "clients"
    case DeleteClient(_) => "clients"
    case SetClientIdentity(_, _) => "clients"
    case SetClientSubscription(_, _) => "clients"
    case SetClientSession(_, _) => "clients"
    case SetUpgrade(_) => "upgrade"
    case _ => "sessions"
  }

  predicate EditsList(m: Mutation) { m.AddRegionToSession? || m.RemoveRegionFromSession? }

  /** A mutation emits at most one op, addressed by its kind and name. */
  lemma EmittedPath(t: Tree, m: Mutation)
    ensures |Emitted(t, m)| <= 1
    ensures forall op :: op in Emitted(t, m) ==>
      op.path == if m.SetUpgrade? then "/upgrade"
                 else if EditsList(m) then ListPath("sessions", PathName(m), "region_ids")
                 else NodePath(PathKind(m), PathName(m))
  {
  }

  lemma NodeOpApplies(t: Tree, kind: string, name: string, op: TreeOp)
    requires kind in {"regions", "sessions", "programs", "clients"} && '/' !in name
    requires op.path == NodePath(kind, name)
    ensures ApplyOps(t, [op]) == ApplyNodeOp(t, kind, name, op)
  {
    SplitNodePath(kind, name);
    ApplySingle(t, op);
  }

  lemma ListOpApplies(t: Tree, name: string, op: TreeOp)
    requires '/' !in name && name in t.sessions
    requires op.path == ListPath("sessions", name, "region_ids")
    ensures ApplyOps(t, [op]) == t.(sessions := t.sessions[name := ApplyListOp(t.sessions[name], op)])
  {
    SplitListPath("sessions", name, "region_ids");
    ApplySingle(t, op);
  }

  /** The op of a mutation of one node, applied to that node's map, does what the mutation did. */
  lemma NodeMutationApplies(t: Tree, m: Mutation)
    requires Emitted(t, m) != [] && !m.SetUpgrade? && !EditsList(m)
    ensures ApplyNodeOp(t, PathKind(m), PathName(m), Emitted(t, m)[0]) == Mutate(t, m)
  {
  }

  lemma ListMutationApplies(t: Tree, m: Mutation)
    requires Emitted(t, m) != [] && EditsList(m)
    ensures PathName(m) in t.sessions
    ensures t.(sessions := t.sessions[PathName(m) := ApplyListOp(t.sessions[PathName(m)], Emitted(t, m)[0])]) ==
      Mutate(t, m)
  {
  }

  lemma UpgradeReplays(t: Tree, u: UpgradeNode)
    ensures ApplyOps(t, [SetOp("/upgrade", OfUpgrade(u))]) == t.(upgrade := u)
  {
    UpgradePath();
    ApplySingle(t, SetOp("/upgrade", OfUpgrade(u)));
  }

  lemma MutationReplays(t: Tree, m: Mutation)
    requires SlashFree(m)
    ensures ApplyOps(t, Emitted(t, m)) == Mutate(t, m)
  {
    EmittedPath(t, m);
    var ops := Emitted(t, m);
    if ops == [] {
      NothingEmittedNothingChanged(t, m);
    } else if m.SetUpgrade? {
      UpgradeReplays(t, m.upgrade);
    } else {
      assert ops == [ops[0]];
      if EditsList(m) {
        ListMutationApplies(t, m);
        ListOpApplies(t, PathName(m), ops[0]);
      } else {
        NodeMutationApplies(t, m);
        NodeOpApplies(t, PathKind(m), PathName(m), ops[0]);
      }
    }
  }

  lemma NothingEmittedNothingChanged(t: Tree, m: Mutation)
    requires Emitted(t, m) == []
    ensures Mutate(t, m) == t
  {
  }

  /** The client ignores a node op whose path is too long, and a list op whose path is longer still. */
  lemma LongPathIgnored(t: Tree, op: TreeOp)
    requires var segs := SplitPath(op.path);
             && segs != [] && segs[0] in {"regions", "sessions", "programs", "clients"}
             && (|segs| > 3 || (|segs| == 3 && op.op != "add" && op.op != "remove"))
    ensures ApplyOps(t, [op]) == t
  {
    ApplySingle(t, op);
  }

  lemma NodeOpKind(t: Tree, m: Mutation)
    ensures forall op :: op in Emitted(t, m) && !EditsList(m) ==> op.op != "add" && op.op != "remove"
  {
    assert "set" != "add" && "set" != "remove" && "delete" != "add" && "delete" != "remove" by {
      assert "set"[0] == 's' && "delete"[0] == 'd' && "add"[0] == 'a' && "remove"[0] == 'r';
    }
  }

  lemma SlashedOpIgnored(t: Tree, m: Mutation, op: TreeOp)
    requires !SlashFree(m) && op in Emitted(t, m)
    ensures ApplyOps(t, [op]) == t
  {
    EmittedPath(t, m);
    NodeOpKind(t, m);
    if EditsList(m) {
      SlashLengthensListPath("sessions", PathName(m), "region_ids");
    } else {
      SlashLengthensNodePath(PathKind(m), PathName(m));
    }
    LongPathIgnored(t, op);
  }

  lemma SlashIsIgnored(t: Tree, m: Mutation)
    requires !SlashFree(m)
    ensures ApplyOps(t, Emitted(t, m)) == t
  {
    EmittedPath(t, m);
    var ops := Emitted(t, m);
    if ops != [] {
      assert ops == [ops[0]];
      SlashedOpIgnored(t, m, ops[0]);
    }
  }

  /**
   One mutation replays on the client exactly when its name has no '/' or it changes nothing:
   the ops of a name with '/' decode to a longer path that the client ignores.
   */
  lemma MutationReplaysIff(t: Tree, m: Mutation)
    ensures ApplyOps(t, Emitted(t, m)) == Mutate(t, m) <==> SlashFree(m) || Mutate(t, m) == t
  {
    if SlashFree(m) {
      MutationReplays(t, m);
    } else {
      SlashIsIgnored(t, m);
    }
  }

  /** The failing input: spawning into a session called "a/b" never reaches a client. */
  lemma SlashedSessionIsLost(t: Tree)
    requires "a/b" !in t.sessions
    ensures "a/b" in Mutate(t, EnsureSession("a/b")).sessions
    ensures "a/b" !in ApplyOps(t, Emitted(t, EnsureSession("a/b"))).sessions
  {
    assert '/' == "a/b"[1];
    SlashIsIgnored(t, EnsureSession("a/b"));
  }

  /** Replaying a transaction's ops on the tree it started from yields the tree it ended with. */
  lemma {:induction false} TransactionReplays(t: Tree, ms: seq<Mutation>)
    requires AllSlashFree(ms)
    ensures ApplyOps(t, EmittedAll(t, ms)) == MutateAll(t, ms)
    decreases |ms|
  {
    if ms != [] {
      assert SlashFree(ms[0]);
      MutationReplays(t, ms[0]);
      ApplyOpsAppend(t, Emitted(t, ms[0]), EmittedAll(Mutate(t, ms[0]), ms[1..]));
      TransactionReplays(Mutate(t, ms[0]), ms[1..]);
    }
  }

  /** A transaction that emitted nothing changed nothing, whatever the names. */
  lemma {:induction false} SilentTransactionIsIdentity(t: Tree, ms: seq<Mutation>)
    requires EmittedAll(t, ms) == []
    ensures MutateAll(t, ms) == t
    decreases |ms|
  {
    if ms != [] {
      assert |Emitted(t, ms[0])| == 0;
      assert Mutate(t, ms[0]) == t;
      SilentTransactionIsIdentity(t, ms[1..]);
    }
  }

  // ── The tree itself ────────────────────────────────────────────────────────

  /** A live region, as its getters report it to the tree. driver is the owner of a native region. */
  datatype Region = Region(
    id: string, name: string, cmd: string, pid: int, session: string,
    width: int, height: int, native: bool, scrollbackLen: int, driver: nat)

  datatype RegionEntry = RegionEntry(region: Region, node: RegionNode)
  datatype SessionEntry = SessionEntry(regionIDs: seq<string>, node: SessionNode)
  datatype ClientEntry = ClientEntry(client: nat, node: ClientNode)

  function NodeOf(r: Region): RegionNode {
    RegionNode(r.id, r.name, r.cmd, r.pid, r.session, r.width, r.height, r.native, r.scrollbackLen)
  }

  /** The node says of the region what the region says of itself. */
  predicate Describes(n: RegionNode, r: Region) {
    && n.id == r.id && n.name == r.name && n.cmd == r.cmd && n.pid == r.pid && n.session == r.session
    && n.width == r.width && n.height == r.height && n.native == r.native && n.scrollbackLen == r.scrollbackLen
  }

  lemma NodeDescribes(r: Region)
    ensures forall n :: n == NodeOf(r) <==> Describes(n, r)
  {
  }

  method RemoveString(ss: seq<string>, v: string) returns (r: seq<string>)
    ensures r == RemoveFirst(ss, v)
  {
    for i := 0 to |ss|
      invariant v !in ss[..i]
    {
      if ss[i] == v {
        RemoveFirstAt(ss, v, i);
        return ss[..i] + ss[i + 1..];
      }
    }
    RemoveFirstAt(ss, v, |ss|);
    return ss;
  }

  class ServerTree {
    var server: ServerNode
    var regions: map<string, RegionEntry>
    var sessions: map<string, SessionEntry>
    var programs: map<string, ProgramNode>
    var clients: map<string, ClientEntry>
    var upgrade: UpgradeNode
    var version: nat
    var ops: seq<TreeOp>
    var inTx: bool

    // The tree when the transaction started, and the mutations made since.
    ghost var base: Tree
    ghost var log: seq<Mutation>

    function View(): Tree
      reads this
    {
      Tree(server,
           map k | k in sessions :: sessions[k].node,
           map k | k in regions :: regions[k].node,
           programs,
           map k | k in clients :: clients[k].node,
           upgrade)
    }

    ghost predicate EntriesAgree()
      reads this
    {
      && (forall k :: k in regions ==> regions[k].region.id == k && Describes(regions[k].node, regions[k].region))
      && (forall k :: k in sessions ==> sessions[k].regionIDs == sessions[k].node.regionIDs)
      && (forall k :: k in clients ==> k == Decimal(clients[k].client))
    }

    ghost predicate Valid()
      reads this
    {
      && EntriesAgree()
      && (if inTx then View() == MutateAll(base, log) && ops == EmittedAll(base, log) else ops == [])
    }

    constructor (server: ServerNode)
      ensures Valid() && !inTx && version == 0 && ops == []
      ensures View() == Tree(server, map[], map[], map[], map[], UpgradeNode(false, "", ""))
    {
      this.server := server;
      regions, sessions, programs, clients := map[], map[], map[], map[];
      upgrade := UpgradeNode(false, "", "");
      version, ops, inTx := 0, [], false;
    }

    method StartTx()
      requires Valid()
      modifies this`inTx, this`ops, this`base, this`log
      ensures Valid() && inTx && ops == [] && base == View() && log == []
    {
      inTx := true;
      ops := [];
      base, log := View(), [];
    }

    /**
     Ends the transaction, if one is open. The ops handed out replay it, and none are handed out only if nothing
     changed. With none open there is nothing to hand out.
     */
    method CommitTx() returns (v: nat, out: seq<TreeOp>)
      requires Valid()
      modifies this`inTx, this`ops, this`version
      ensures Valid() && !inTx && ops == [] && View() == old(View())
      ensures out == old(ops) && (!old(inTx) ==> out == [])
      ensures old(inTx) ==> out == EmittedAll(base, log) && View() == MutateAll(base, log)
      ensures version == old(version) + (if out == [] then 0 else 1)
      ensures v == if out == [] then 0 else version
      ensures old(inTx) && AllSlashFree(log) ==> ApplyOps(base, out) == View()
      ensures old(inTx) && out == [] ==> View() == base
    {
      inTx := false;
      if |ops| == 0 {
        if old(inTx) {
          SilentTransactionIsIdentity(base, log);
        }
        return 0, [];
      }
      version := version + 1;
      out := ops;
      ops := [];
      v := version;
      if AllSlashFree(log) {
        TransactionReplays(base, log);
      }
    }

    method Emit(op: TreeOp)
      modifies this`ops
      ensures ops == if inTx then old(ops) + [op] else old(ops)
    {
      if inTx {
        ops := ops + [op];
      }
    }

    /** The contract every mutator shares: it makes mutation m and emits its ops when a transaction is open. */
    twostate predicate Did(m: Mutation)
      reads this
    {
      && Valid()
      && View() == Mutate(old(View()), m)
      && ops == old(ops) + (if inTx then Emitted(old(View()), m) else [])
      && inTx == old(inTx) && version == old(version) && base == old(base)
      && log == old(log) + (if inTx then [m] else [])
    }

    /** Closes a mutator: the recorded log keeps describing the tree and the ops. */
    ghost method Record(m: Mutation, before: Tree, opsBefore: seq<TreeOp>)
      requires EntriesAgree()
      requires View() == Mutate(before, m)
      requires ops == opsBefore + (if inTx then Emitted(before, m) else [])
      requires if inTx then before == MutateAll(base, log) && opsBefore == EmittedAll(base, log) else opsBefore == []
      modifies this`log
      ensures Valid() && log == old(log) + (if inTx then [m] else [])
    {
      if inTx {
        MutateAllAppend(base, log, [m]);
        assert EmittedAll(before, [m]) == Emitted(before, m) + [];
        log := log + [m];
      }
    }

    method SetRegion(r: Region)
      requires Valid()
      modifies this`regions, this`ops, this`log
      ensures Did(Mutation.SetRegion(NodeOf(r)))
      ensures regions == old(regions)[r.id := RegionEntry(r, NodeOf(r))]
    {
      ghost var before, opsBefore := View(), ops;
      var node := NodeOf(r);
      PutRegion(r, node);
      Emit(SetOp(NodePath("regions", r.id), OfRegion(node)));
      Record(Mutation.SetRegion(node), before, opsBefore);
    }

    method DeleteRegion(id: string)
      requires Valid()
      modifies this`regions, this`ops, this`log
      ensures Did(Mutation.DeleteRegion(id))
      ensures regions == old(regions) - {id}
    {
      ghost var before, opsBefore := View(), ops;
      DropRegion(id);
      Emit(DeleteOp(NodePath("regions", id)));
      Record(Mutation.DeleteRegion(id), before, opsBefore);
    }

    method EnsureSession(name: string) returns (created: bool)
      requires Valid()
      modifies this`sessions, this`ops, this`log
      ensures Did(Mutation.EnsureSession(name))
      ensures created == (name !in old(sessions))
    {
      ghost var before, opsBefore := View(), ops;
      if name in sessions {
        Record(Mutation.EnsureSession(name), before, opsBefore);
        return false;
      }
      var node := SessionNode(name, []);
      PutSession(name, [], node);
      Emit(SetOp(NodePath("sessions", name), OfSession(node)));
      Record(Mutation.EnsureSession(name), before, opsBefore);
      return true;
    }

    method DeleteSession(name: string)
      requires Valid()
      modifies this`sessions, this`ops, this`log
      ensures Did(Mutation.DeleteSession(name))
    {
      ghost var before, opsBefore := View(), ops;
      DropSession(name);
      Emit(DeleteOp(NodePath("sessions", name)));
      Record(Mutation.DeleteSession(name), before, opsBefore);
    }

    method AddRegionToSession(session: string, regionID: string)
      requires Valid()
      modifies this`sessions, this`ops, this`log
      ensures Did(Mutation.AddRegionToSession(session, regionID))
    {
      ghost var before, opsBefore := View(), ops;
      if session in sessions {
        var ids := sessions[session].regionIDs + [regionID];
        var node := sessions[session].node.(regionIDs := ids);
        PutSession(session, ids, node);
        Emit(TreeOp("add", ListPath("sessions", session, "region_ids"), OfString(regionID), Absent));
      }
      Record(Mutation.AddRegionToSession(session, regionID), before, opsBefore);
    }

    method RemoveRegionFromSession(session: string, regionID: string)
      requires Valid()
      modifies this`sessions, this`ops, this`log
      ensures Did(Mutation.RemoveRegionFromSession(session, regionID))
    {
      ghost var before, opsBefore := View(), ops;
      if session in sessions {
        var ids := RemoveString(sessions[session].regionIDs, regionID);
        var node := sessions[session].node.(regionIDs := ids);
        PutSession(session, ids, node);
        Emit(TreeOp("remove", ListPath("sessions", session, "region_ids"), Absent, OfString(regionID)));
      }
      Record(Mutation.RemoveRegionFromSession(session, regionID), before, opsBefore);
    }

    method SetProgram(node: ProgramNode)
      requires Valid()
      modifies this`programs, this`ops, this`log
      ensures Did(Mutation.SetProgram(node))
    {
      ghost var before, opsBefore := View(), ops;
      programs := programs[node.name := node];
      Emit(SetOp(NodePath("programs", node.name), OfProgram(node)));
      Record(Mutation.SetProgram(node), before, opsBefore);
    }

    method DeleteProgram(name: string)
      requires Valid()
      modifies this`programs, this`ops, this`log
      ensures Did(Mutation.DeleteProgram(name))
    {
      ghost var before, opsBefore := View(), ops;
      programs := programs - {name};
      Emit(DeleteOp(NodePath("programs", name)));
      Record(Mutation.DeleteProgram(name), before, opsBefore);
    }

    method AddClient(client: nat)
      requires Valid()
      modifies this`clients, this`ops, this`log
      ensures Did(Mutation.AddClient(client))
    {
      ghost var before, opsBefore := View(), ops;
      var cid := Decimal(client);
      var node := NewClientNode(client);
      PutClient(cid, ClientEntry(client, node));
      Emit(SetOp(NodePath("clients", cid), OfClient(node)));
      Record(Mutation.AddClient(client), before, opsBefore);
    }

    method DeleteClient(client: nat)
      requires Valid()
      modifies this`clients, this`ops, this`log
      ensures Did(Mutation.DeleteClient(client))
    {
      ghost var before, opsBefore := View(), ops;
      var cid := Decimal(client);
      DropClient(cid);
      Emit(DeleteOp(NodePath("clients", cid)));
      Record(Mutation.DeleteClient(client), before, opsBefore);
    }

    // ── One entry at a time ──────────────────────────────────────────────────

    method PutRegion(r: Region, node: RegionNode)
      requires EntriesAgree() && node == NodeOf(r)
      modifies this`regions
      ensures EntriesAgree() && regions == old(regions)[r.id := RegionEntry(r, node)]
      ensures View() == old(View()).(regions := old(View()).regions[r.id := node])
    {
      regions := regions[r.id := RegionEntry(r, node)];
      assert View().regions == old(View()).regions[r.id := node];
    }

    method DropRegion(id: string)
      requires EntriesAgree()
      modifies this`regions
      ensures EntriesAgree() && regions == old(regions) - {id}
      ensures View() == old(View()).(regions := old(View()).regions - {id})
    {
      regions := regions - {id};
      assert View().regions == old(View()).regions - {id};
    }

    method PutSession(name: string, ids: seq<string>, node: SessionNode)
      requires EntriesAgree() && node.regionIDs == ids
      modifies this`sessions
      ensures EntriesAgree() && View() == old(View()).(sessions := old(View()).sessions[name := node])
    {
      sessions := sessions[name := SessionEntry(ids, node)];
      assert View().sessions == old(View()).sessions[name := node];
    }

    method DropSession(name: string)
      requires EntriesAgree()
      modifies this`sessions
      ensures EntriesAgree() && View() == old(View()).(sessions := old(View()).sessions - {name})
    {
      sessions := sessions - {name};
      assert View().sessions == old(View()).sessions - {name};
    }

    method PutClient(cid: string, entry: ClientEntry)
      requires EntriesAgree() && cid == Decimal(entry.client)
      modifies this`clients
      ensures EntriesAgree() && View() == old(View()).(clients := old(View()).clients[cid := entry.node])
    {
      clients := clients[cid := entry];
      assert View().clients == old(View()).clients[cid := entry.node];
    }

    method DropClient(cid: string)
      requires EntriesAgree()
      modifies this`clients
      ensures EntriesAgree() && View() == old(View()).(clients := old(View()).clients - {cid})
    {
      clients := clients - {cid};
      assert View().clients == old(View()).clients - {cid};
    }

    method SetClientIdentity(client: nat, ident: Identity)
      requires Valid()
      modifies this`clients, this`ops, this`log
      ensures Did(Mutation.SetClientIdentity(client, ident))
    {
      ghost var before, opsBefore := View(), ops;
      var cid := Decimal(client);
      if cid in clients {
        var node := WithIdentity(clients[cid].node, ident);
        PutClient(cid, clients[cid].(node := node));
        Emit(SetOp(NodePath("clients", cid), OfClient(node)));
      }
      Record(Mutation.SetClientIdentity(client, ident), before, opsBefore);
    }

    method SetClientSubscription(client: nat, regionID: string)
      requires Valid()
      modifies this`clients, this`ops, this`log
      ensures Did(Mutation.SetClientSubscription(client, regionID))
    {
      ghost var before, opsBefore := View(), ops;
      var cid := Decimal(client);
      if cid in clients {
        var node := clients[cid].node.(subscribedRegionID := regionID);
        PutClient(cid, clients[cid].(node := node));
        Emit(SetOp(NodePath("clients", cid), OfClient(node)));
      }
      Record(Mutation.SetClientSubscription(client, regionID), before, opsBefore);
    }

    method SetClientSession(client: nat, session: string)
      requires Valid()
      modifies this`clients, this`ops, this`log
      ensures Did(Mutation.SetClientSession(client, session))
    {
      ghost var before, opsBefore := View(), ops;
      var cid := Decimal(client);
      if cid in clients {
        var node := clients[cid].node.(session := session);
        PutClient(cid, clients[cid].(node := node));
        Emit(SetOp(NodePath("clients", cid), OfClient(node)));
      }
      Record(Mutation.SetClientSession(client, session), before, opsBefore);
    }

    method SetUpgrade(u: UpgradeNode)
      requires Valid()
      modifies this`upgrade, this`ops, this`log
      ensures Did(Mutation.SetUpgrade(u))
    {
      ghost var before, opsBefore := View(), ops;
      upgrade := u;
      Emit(SetOp("/upgrade", OfUpgrade(u)));
      Record(Mutation.SetUpgrade(u), before, opsBefore);
    }

    method TakeSnapshot() returns (m: Message)
      ensures m == Snapshot(version, View())
    {
      m := Snapshot(version, View());
    }
  }
}
