/** The client's local copy of the server tree (internal/tui/tree.go). */
module ClientTree {
  import opened Protocol

  /** The effect of one op on a tree: a table from decoded path and op to the one thing that changes. */
  function ApplyOp(t: Tree, op: TreeOp): Tree {
    var segs := SplitPath(op.path);
    if segs == [] then t
    else if |segs| == 2 && segs[0] in {"regions", "sessions", "programs", "clients"} then
      ApplyNodeOp(t, segs[0], segs[1], op)
    else if |segs| == 3 && segs[0] == "sessions" && segs[2] == "region_ids" && segs[1] in t.sessions then
      t.(sessions := t.sessions[segs[1] := ApplyListOp(t.sessions[segs[1]], op)])
    else ApplyRootOp(t, segs[0], op)
  }

  function ApplyNodeOp(t: Tree, kind: string, name: string, op: TreeOp): Tree
    requires kind in {"regions", "sessions", "programs", "clients"}
  {
    if op.op == "delete" then
      if kind == "regions" then t.(regions := t.regions - {name})
      else if kind == "sessions" then t.(sessions := t.sessions - {name})
      else if kind == "programs" then t.(programs := t.programs - {name})
      else t.(clients := t.clients - {name})
    else if op.op != "set" then t
    else match op.value
      case OfRegion(node) => if kind == "regions" then t.(regions := t.regions[name := node]) else t
      case OfSession(node) => if kind == "sessions" then t.(sessions := t.sessions[name := node]) else t
      case OfProgram(node) => if kind == "programs" then t.(programs := t.programs[name := node]) else t
      case OfClient(node) => if kind == "clients" then t.(clients := t.clients[name := node]) else t
      case _ => t
  }

  /** The two single nodes ignore whatever follows the first path segment. */
  function ApplyRootOp(t: Tree, kind: string, op: TreeOp): Tree {
    if kind == "upgrade" && op.op == "set" && op.value.OfUpgrade? then t.(upgrade := op.value.upgrade)
    else if kind == "server" && op.op == "set" && op.value.OfServer? then t.(server := op.value.server)
    else t
  }

  function ApplyListOp(s: SessionNode, op: TreeOp): SessionNode {
    if op.op == "add" && op.value.OfString? then s.(regionIDs := s.regionIDs + [op.value.str])
    else if op.op == "remove" && op.toRemove.OfString? then
      s.(regionIDs := RemoveFirst(s.regionIDs, op.toRemove.str))
    else s
  }

  function ApplyOps(t: Tree, ops: seq<TreeOp>): Tree
    decreases |ops|
  {
    if ops == [] then t else ApplyOps(ApplyOp(t, ops[0]), ops[1..])
  }

  lemma {:induction false} ApplyOpsAppend(t: Tree, a: seq<TreeOp>, b: seq<TreeOp>)
    ensures ApplyOps(t, a + b) == ApplyOps(ApplyOps(t, a), b)
    decreases |a|
  {
    if a == [] {
      assert a + b == b;
    } else {
      assert (a + b)[1..] == a[1..] + b;
      ApplyOpsAppend(ApplyOp(t, a[0]), a[1..], b);
    }
  }

  predicate Decodes(value: Json, kind: string) {
    match value
    case OfServer(_) => kind == "server"
    case OfSession(_) => kind == "sessions"
    case OfRegion(_) => kind == "regions"
    case OfProgram(_) => kind == "programs"
    case OfClient(_) => kind == "clients"
    case OfUpgrade(_) => kind == "upgrade"
    case _ => false
  }

  /** The op is one the client knows, on a path it knows, with a value of the right type. */
  predicate Understood(t: Tree, op: TreeOp) {
    var segs := SplitPath(op.path);
    segs != [] &&
    if |segs| == 2 && segs[0] in {"regions", "sessions", "programs", "clients"} then
      op.op == "delete" || (op.op == "set" && Decodes(op.value, segs[0]))
    else if segs[0] == "sessions" then
      |segs| == 3 && segs[2] == "region_ids" && segs[1] in t.sessions
      && ((op.op == "add" && op.value.OfString?) || (op.op == "remove" && op.toRemove.OfString?))
    else
      segs[0] in {"upgrade", "server"} && op.op == "set" && Decodes(op.value, segs[0])
  }

  /** Any other op is ignored. */
  lemma StrayOpIgnored(t: Tree, op: TreeOp)
    requires !Understood(t, op)
    ensures ApplyOp(t, op) == t
  {
    var segs := SplitPath(op.path);
    if segs != [] && |segs| == 3 && segs[0] == "sessions" && segs[2] == "region_ids" && segs[1] in t.sessions {
      assert ApplyListOp(t.sessions[segs[1]], op) == t.sessions[segs[1]];
    }
  }

  lemma ServerIsReplaced(t: Tree, op: TreeOp)
    requires SplitPath(op.path) != [] && SplitPath(op.path)[0] == "server" && op.op == "set" && op.value.OfServer?
    ensures ApplyOp(t, op) == t.(server := op.value.server)
  {
    assert "server" != "upgrade" && "server" != "regions" && "server" != "sessions" by {
      assert |"server"| == 6 && |"upgrade"| == 7 && |"regions"| == 7 && |"sessions"| == 8;
    }
    assert "server" != "programs" && "server" != "clients" by {
      assert |"server"| == 6 && |"programs"| == 8 && |"clients"| == 7;
    }
  }

  /** What a store holds; the tree is meaningful only once valid. */
  datatype Replica = Replica(tree: Tree, version: nat, valid: bool)

  /** The store after one message, and whether it was accepted (a refusal asks for a resync). */
  function Receive(r: Replica, m: Message): (Replica, bool) {
    match m
    case Snapshot(v, t) => (Replica(t, v, true), true)
    case Events(v, ops) =>
      if r.valid && v == r.version + 1 then (Replica(ApplyOps(r.tree, ops), v, true), true) else (r, false)
    case Other => (r, true)
  }

  class TreeStore {
    var tree: Tree
    var version: nat
    var valid: bool

    constructor (tree: Tree)
      ensures !valid && this.tree == tree
    {
      this.tree := tree;
      version := 0;
      valid := false;
    }

    function State(): Replica
      reads this
    {
      Replica(tree, version, valid)
    }

    method HandleSnapshot(version: nat, tree: Tree)
      modifies this
      ensures State() == Receive(old(State()), Snapshot(version, tree)).0
      ensures this.tree == tree && this.version == version && valid
    {
      this.tree := tree;
      this.version := version;
      valid := true;
    }

    method HandleEvents(version: nat, ops: seq<TreeOp>) returns (accepted: bool)
      modifies this
      ensures (State(), accepted) == Receive(old(State()), Events(version, ops))
      ensures accepted <==> old(valid) && version == old(this.version) + 1
      ensures State() == if accepted then Replica(ApplyOps(old(tree), ops), version, true) else old(State())
    {
      if !valid {
        return false;
      }
      if version != this.version + 1 {
        return false;
      }
      for i := 0 to |ops|
        invariant ApplyOps(tree, ops[i..]) == ApplyOps(old(tree), ops)
        invariant this.version == old(this.version) && valid
      {
        ApplyOne(ops[i]);
        assert ops[i..][1..] == ops[i + 1..];
      }
      this.version := version;
      return true;
    }

    method ApplyOne(op: TreeOp)
      modifies this`tree
      ensures tree == ApplyOp(old(tree), op)
    {
      var segs := SplitPath(op.path);
      if |segs| == 0 {
        return;
      }
      if segs[0] == "regions" {
        ApplyRegionOp(segs[1..], op);
      } else if segs[0] == "sessions" {
        ApplySessionOp(segs[1..], op);
      } else if segs[0] == "programs" {
        ApplyProgramOp(segs[1..], op);
      } else if segs[0] == "clients" {
        ApplyClientOp(segs[1..], op);
      } else if segs[0] == "upgrade" {
        if op.op == "set" && op.value.OfUpgrade? {
          tree := tree.(upgrade := op.value.upgrade);
        }
      } else if segs[0] == "server" {
        if op.op == "set" && op.value.OfServer? {
          tree := tree.(server := op.value.server);
        }
      }
      assert segs == [segs[0]] + segs[1..];
    }

    method ApplyRegionOp(segs: seq<string>, op: TreeOp)
      requires SplitPath(op.path) == ["regions"] + segs
      modifies this`tree
      ensures tree == ApplyOp(old(tree), op)
    {
      if |segs| != 1 {
        return;
      }
      assert segs == [segs[0]];
      if op.op == "set" {
        if op.value.OfRegion? {
          tree := tree.(regions := tree.regions[segs[0] := op.value.region]);
        }
      } else if op.op == "delete" {
        tree := tree.(regions := tree.regions - {segs[0]});
      }
    }

    method ApplySessionOp(segs: seq<string>, op: TreeOp)
      requires SplitPath(op.path) == ["sessions"] + segs
      modifies this`tree
      ensures tree == ApplyOp(old(tree), op)
    {
      if |segs| == 1 {
        assert segs == [segs[0]];
        if op.op == "set" {
          if op.value.OfSession? {
            tree := tree.(sessions := tree.sessions[segs[0] := op.value.session]);
          }
        } else if op.op == "delete" {
          tree := tree.(sessions := tree.sessions - {segs[0]});
        }
        return;
      }
      if |segs| == 2 && segs[1] == "region_ids" {
        assert segs == [segs[0], segs[1]];
        var name := segs[0];
        if name !in tree.sessions {
          return;
        }
        var snode := tree.sessions[name];
        if op.op == "add" {
          if op.value.OfString? {
            snode := snode.(regionIDs := snode.regionIDs + [op.value.str]);
            tree := tree.(sessions := tree.sessions[name := snode]);
          }
        } else if op.op == "remove" {
          if op.toRemove.OfString? {
            var ids := snode.regionIDs;
            var i := 0;
            while i < |ids| && ids[i] != op.toRemove.str
              invariant i <= |ids| && op.toRemove.str !in ids[..i]
            {
              i := i + 1;
            }
            RemoveFirstAt(ids, op.toRemove.str, i);
            if i < |ids| {
              ids := ids[..i] + ids[i + 1..];
            }
            snode := snode.(regionIDs := ids);
            tree := tree.(sessions := tree.sessions[name := snode]);
          }
        }
        assert tree.sessions == ApplyOp(old(tree), op).sessions;
      }
    }

    method ApplyProgramOp(segs: seq<string>, op: TreeOp)
      requires SplitPath(op.path) == ["programs"] + segs
      modifies this`tree
      ensures tree == ApplyOp(old(tree), op)
    {
      if |segs| != 1 {
        return;
      }
      assert segs == [segs[0]];
      if op.op == "set" {
        if op.value.OfProgram? {
          tree := tree.(programs := tree.programs[segs[0] := op.value.program]);
        }
      } else if op.op == "delete" {
        tree := tree.(programs := tree.programs - {segs[0]});
      }
    }

    method ApplyClientOp(segs: seq<string>, op: TreeOp)
      requires SplitPath(op.path) == ["clients"] + segs
      modifies this`tree
      ensures tree == ApplyOp(old(tree), op)
    {
      if |segs| != 1 {
        return;
      }
      assert segs == [segs[0]];
      if op.op == "set" {
        if op.value.OfClient? {
          tree := tree.(clients := tree.clients[segs[0] := op.value.client]);
        }
      } else if op.op == "delete" {
        tree := tree.(clients := tree.clients - {segs[0]});
      }
    }
  }
}
