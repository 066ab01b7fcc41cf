/** The object tree and the messages that replicate it (internal/protocol/tree.go). */
module Protocol {
  import opened Text

  datatype ServerNode = ServerNode(version: string, hostname: string, pid: int, startTime: int, socketPath: string)
  datatype SessionNode = SessionNode(name: string, regionIDs: seq<string>)
  datatype RegionNode = RegionNode(
    id: string, name: string, cmd: string, pid: int, session: string,
    width: int, height: int, native: bool, scrollbackLen: int)
  datatype ProgramNode = ProgramNode(name: string, cmd: string, args: seq<string>)
  datatype ClientNode = ClientNode(
    id: string, hostname: string, username: string, pid: int, process: string,
    session: string, subscribedRegionID: string)
  datatype UpgradeNode = UpgradeNode(active: bool, phase: string, message: string)

  datatype Tree = Tree(
    server: ServerNode,
    sessions: map<string, SessionNode>,
    regions: map<string, RegionNode>,
    programs: map<string, ProgramNode>,
    clients: map<string, ClientNode>,
    upgrade: UpgradeNode)

  /** A raw JSON value. Decoding it as a given type succeeds exactly when it was encoded from that type. */
  datatype Json =
    | Absent
    | OfServer(server: ServerNode)
    | OfSession(session: SessionNode)
    | OfRegion(region: RegionNode)
    | OfProgram(program: ProgramNode)
    | OfClient(client: ClientNode)
    | OfUpgrade(upgrade: UpgradeNode)
    | OfString(str: string)

  datatype TreeOp = TreeOp(op: string, path: string, value: Json, toRemove: Json)

  function SplitPath(path: string): seq<string> {
    var p := if |path| > 0 && path[0] == '/' then path[1..] else path;
    if p == "" then [] else Split(p, '/')
  }

  function NodePath(kind: string, name: string): string { "/" + kind + "/" + name }
  function ListPath(kind: string, name: string, field: string): string { NodePath(kind, name) + "/" + field }

  /** A two-part path over a name without '/' splits back into its parts. */
  lemma SplitNodePath(kind: string, name: string)
    requires '/' !in kind && kind != "" && '/' !in name
    ensures SplitPath(NodePath(kind, name)) == [kind, name]
  {
    assert NodePath(kind, name)[1..] == kind + ['/'] + name;
    SplitAtSeparator(kind, '/', name);
    SplitWhole(name, '/');
  }

  lemma SplitListPath(kind: string, name: string, field: string)
    requires '/' !in kind && kind != "" && '/' !in name && '/' !in field
    ensures SplitPath(ListPath(kind, name, field)) == [kind, name, field]
  {
    assert ListPath(kind, name, field)[1..] == kind + ['/'] + (name + ['/'] + field);
    SplitAtSeparator(kind, '/', name + ['/'] + field);
    SplitAtSeparator(name, '/', field);
    SplitWhole(field, '/');
  }

  /** A name containing '/' makes every path built from it too long to be read back as a node path. */
  lemma SlashLengthensNodePath(kind: string, name: string)
    requires '/' !in kind && kind != "" && '/' in name
    ensures var segs := SplitPath(NodePath(kind, name)); |segs| >= 3 && segs[0] == kind
  {
    assert NodePath(kind, name)[1..] == kind + ['/'] + name;
    SplitAtSeparator(kind, '/', name);
    SplitWhole(name, '/');
  }

  lemma {:induction false} SplitLength(a: string, c: char, b: string)
    ensures |Split(a + [c] + b, c)| == |Split(a, c)| + |Split(b, c)|
  {
    if a == [] {
      assert (a + [c] + b)[1..] == b;
    } else {
      assert (a + [c] + b)[1..] == a[1..] + [c] + b;
      SplitLength(a[1..], c, b);
    }
  }

  lemma SlashLengthensListPath(kind: string, name: string, field: string)
    requires '/' !in kind && kind != "" && '/' in name
    ensures var segs := SplitPath(ListPath(kind, name, field)); |segs| >= 4 && segs[0] == kind
  {
    assert ListPath(kind, name, field)[1..] == kind + ['/'] + (name + ['/'] + field);
    SplitAtSeparator(kind, '/', name + ['/'] + field);
    SplitLength(name, '/', field);
    SplitWhole(name, '/');
  }

  ghost predicate Distinct<T>(ss: seq<T>) {
    forall i, j :: 0 <= i < j < |ss| ==> ss[i] != ss[j]
  }

  /** The list without the first occurrence of v, if there is one. */
  function RemoveFirst(ss: seq<string>, v: string): (r: seq<string>) {
    if ss == [] then []
    else if ss[0] == v then ss[1..]
    else [ss[0]] + RemoveFirst(ss[1..], v)
  }

  lemma {:induction false} RemoveFirstAt(ss: seq<string>, v: string, i: nat)
    requires i <= |ss| && v !in ss[..i]
    ensures i == |ss| ==> RemoveFirst(ss, v) == ss
    ensures i < |ss| && ss[i] == v ==> RemoveFirst(ss, v) == ss[..i] + ss[i + 1..]
  {
    if i == 0 {
    } else {
      assert ss[0] == ss[..i][0];
      assert ss[1..][..i - 1] == ss[..i][1..];
      RemoveFirstAt(ss[1..], v, i - 1);
      if i < |ss| && ss[i] == v {
        assert ss[1..][i - 1] == v;
        assert [ss[0]] + (ss[1..][..i - 1] + ss[1..][i..]) == ss[..i] + ss[i + 1..];
      } else if i == |ss| {
        assert [ss[0]] + ss[1..] == ss;
      }
    }
  }

  /** From a duplicate-free list, removing v leaves a duplicate-free list of exactly the other elements. */
  lemma {:induction false} RemoveFirstDistinct(ss: seq<string>, v: string)
    requires Distinct(ss)
    ensures Distinct(RemoveFirst(ss, v))
    ensures forall x :: x in RemoveFirst(ss, v) <==> x in ss && x != v
  {
    if ss != [] {
      var tail := ss[1..];
      assert forall i :: 0 <= i < |tail| ==> tail[i] == ss[i + 1];
      assert ss == [ss[0]] + tail;
      RemoveFirstDistinct(tail, v);
      assert ss[0] !in tail;
    }
  }

  datatype Message =
    | Snapshot(version: nat, tree: Tree)
    | Events(version: nat, ops: seq<TreeOp>)
    | Other
}
