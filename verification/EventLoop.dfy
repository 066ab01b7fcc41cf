/**
 The server's event loop (internal/server/server_requests.go): request
 handlers over the tree, the subscription map and the overlay maps, each run
 inside one tree transaction.
 */
module EventLoop {
  import opened Text
  import opened Protocol
  import opened ClientTree
  import opened ServerObjects

  /** A request and what its handler reads from outside: a region's new geometry, the actor's answer to an overlay. */
  datatype Request =
    | AddClient(client: nat)
    | RemoveClient(client: nat)
    | SpawnRegion(region: Region, session: string)
    | DestroyRegion(id: string)
    | SetRegionGeometry(id: string, width: int, height: int, scrollbackLen: int)
    | Subscribe(client: nat, id: string)
    | Unsubscribe(client: nat)
    | RegisterOverlay(client: nat, id: string, accepted: bool)
    | ClearOverlay(client: nat, id: string)
    | SetSession(client: nat, session: string)
    | Identify(client: nat, identity: Identity)

  /** fanout: for each live region, the clients its actor sends to. */
  datatype Loop = Loop(
    tree: Tree,
    subscriptions: map<nat, string>,
    clientOverlays: map<nat, string>,
    regionOverlays: map<string, nat>,
    fanout: map<string, set<nat>>)

  function Spawned(r: Region, session: string): RegionNode { NodeOf(r.(session := session)) }

  function SessionIsEmptied(t: Tree, session: string, id: string): bool {
    session in t.sessions && RemoveFirst(t.sessions[session].regionIDs, id) == []
  }

  /** The tree mutations a request makes, in order. */
  function MutationsOf(t: Tree, r: Request): seq<Mutation> {
    match r
    case AddClient(c) => [Mutation.AddClient(c)]
    case RemoveClient(c) => [Mutation.DeleteClient(c)]
    case SpawnRegion(n, s) => [Mutation.SetRegion(Spawned(n, s)), Mutation.EnsureSession(s),
      Mutation.AddRegionToSession(s, n.id)]
    case DestroyRegion(id) =>
      if id !in t.regions then []
      else
        var s := t.regions[id].session;
        [Mutation.DeleteRegion(id), Mutation.RemoveRegionFromSession(s, id)]
        + (if SessionIsEmptied(t, s, id) then [Mutation.DeleteSession(s)] else [])
    case SetRegionGeometry(id, w, h, n) =>
      if id !in t.regions then [] else [Mutation.SetRegion(t.regions[id].(width := w, height := h, scrollbackLen := n))]
    case Subscribe(c, id) =>
      if id in t.regions && Decimal(c) in t.clients then [Mutation.SetClientSubscription(c, id)] else []
    case Unsubscribe(c) => [Mutation.SetClientSubscription(c, "")]
    case SetSession(c, s) => [Mutation.SetClientSession(c, s)]
    case Identify(c, i) => [Mutation.SetClientIdentity(c, i)]
    case _ => []
  }

  function Without<K>(f: map<K, set<nat>>, k: K, c: nat): map<K, set<nat>> {
    if k in f then f[k := f[k] - {c}] else f
  }

  function SubscriptionsAfter(l: Loop, r: Request): map<nat, string> {
    match r
    case RemoveClient(c) => l.subscriptions - {c}
    case Unsubscribe(c) => l.subscriptions - {c}
    case DestroyRegion(id) =>
      if id !in l.tree.regions then l.subscriptions
      else map c | c in l.subscriptions && l.subscriptions[c] != id :: l.subscriptions[c]
    case Subscribe(c, id) =>
      if id in l.tree.regions && Decimal(c) in l.tree.clients then l.subscriptions[c := id] else l.subscriptions
    case _ => l.subscriptions
  }

  function FanoutAfter(l: Loop, r: Request): map<string, set<nat>> {
    match r
    case RemoveClient(c) => if c in l.subscriptions then Without(l.fanout, l.subscriptions[c], c) else l.fanout
    case Unsubscribe(c) => if c in l.subscriptions then Without(l.fanout, l.subscriptions[c], c) else l.fanout
    case SpawnRegion(n, _) => l.fanout[n.id := {}]
    case DestroyRegion(id) => l.fanout - {id}
    case Subscribe(c, id) =>
      if id !in l.tree.regions || id !in l.fanout then l.fanout
      else
        var f := if c in l.subscriptions && l.subscriptions[c] != id then Without(l.fanout, l.subscriptions[c], c)
          else l.fanout;
        if Decimal(c) !in l.tree.clients then f else f[id := f[id] + {c}]
    case _ => l.fanout
  }

  /** The overlay maps after a request. */
  function OverlaysAfter(l: Loop, r: Request): (map<nat, string>, map<string, nat>) {
    match r
    case RemoveClient(c) =>
      if c !in l.clientOverlays then (l.clientOverlays, l.regionOverlays)
      else
        var id := l.clientOverlays[c];
        (l.clientOverlays - {c},
         if id in l.regionOverlays && l.regionOverlays[id] == c then l.regionOverlays - {id} else l.regionOverlays)
    case DestroyRegion(id) =>
      if id !in l.tree.regions || id !in l.regionOverlays then (l.clientOverlays, l.regionOverlays)
      else (l.clientOverlays - {l.regionOverlays[id]}, l.regionOverlays - {id})
    case RegisterOverlay(c, id, accepted) =>
      if id !in l.tree.regions || !accepted then (l.clientOverlays, l.regionOverlays)
      else
        var stale := if id in l.regionOverlays && l.regionOverlays[id] != c then {l.regionOverlays[id]} else {};
        ((l.clientOverlays - stale)[c := id], l.regionOverlays[id := c])
    case ClearOverlay(c, id) =>
      if id in l.regionOverlays && l.regionOverlays[id] == c then (l.clientOverlays - {c}, l.regionOverlays - {id})
      else (l.clientOverlays, l.regionOverlays)
    case _ => (l.clientOverlays, l.regionOverlays)
  }

  function Handle(l: Loop, r: Request): Loop {
    var overlays := OverlaysAfter(l, r);
    Loop(MutateAll(l.tree, MutationsOf(l.tree, r)), SubscriptionsAfter(l, r), overlays.0, overlays.1, FanoutAfter(l, r))
  }

  // ── Sessions and regions ───────────────────────────────────────────────────

  /**
   Every live region is listed exactly once, by exactly the session it names; no listed id is dead; no
   session is empty.
   */
  ghost predicate Consistent(t: Tree) {
    && (forall id :: id in t.regions ==> RegionListed(t, id))
    && (forall s :: s in t.sessions ==> SessionSound(t, s))
  }

  ghost predicate RegionListed(t: Tree, id: string)
    requires id in t.regions
  {
    var n := t.regions[id];
    n.id == id && n.session in t.sessions && id in t.sessions[n.session].regionIDs
  }

  ghost predicate SessionSound(t: Tree, s: string)
    requires s in t.sessions
  {
    var ids := t.sessions[s].regionIDs;
    && ids != [] && Distinct(ids)
    && forall id :: id in ids ==> id in t.regions && t.regions[id].session == s
  }

  lemma MutateOne(t: Tree, m: Mutation)
    ensures MutateAll(t, [m]) == Mutate(t, m)
  {
    assert [m][1..] == [];
  }

  lemma MutateTwo(t: Tree, m: Mutation, n: Mutation)
    ensures MutateAll(t, [m, n]) == Mutate(Mutate(t, m), n)
  {
    assert [m, n][1..] == [n];
    MutateOne(Mutate(t, m), n);
  }

  lemma MutateThree(t: Tree, m: Mutation, n: Mutation, o: Mutation)
    ensures MutateAll(t, [m, n, o]) == Mutate(Mutate(Mutate(t, m), n), o)
  {
    assert [m, n, o][1..] == [n, o];
    MutateTwo(Mutate(t, m), n, o);
  }

  /** The regions and sessions after a spawn. */
  lemma SpawnedTree(t: Tree, n: Region, s: string)
    ensures var u := MutateAll(t, MutationsOf(t, SpawnRegion(n, s)));
            var before := if s in t.sessions then t.sessions[s] else SessionNode(s, []);
            && u.regions == t.regions[n.id := Spawned(n, s)]
            && u.sessions == t.sessions[s := before.(regionIDs := before.regionIDs + [n.id])]
            && u.clients == t.clients
  {
    var m1, m2, m3 := Mutation.SetRegion(Spawned(n, s)), Mutation.EnsureSession(s),
      Mutation.AddRegionToSession(s, n.id);
    MutateThree(t, m1, m2, m3);
    EnsureThenAdd(Mutate(t, m1), s, n.id);
  }

  lemma EnsureThenAdd(t: Tree, s: string, id: string)
    ensures var before := if s in t.sessions then t.sessions[s] else SessionNode(s, []);
            Mutate(Mutate(t, Mutation.EnsureSession(s)), Mutation.AddRegionToSession(s, id))
            == t.(sessions := t.sessions[s := before.(regionIDs := before.regionIDs + [id])])
  {
    var a := Mutate(t, Mutation.EnsureSession(s));
    if s !in t.sessions {
      var fresh' := SessionNode(s, []);
      assert t.sessions[s := fresh'][s := fresh'.(regionIDs := [id])] == t.sessions[s := fresh'.(regionIDs := [id])];
      assert [] + [id] == [id];
    }
  }

  lemma SpawnKeepsConsistent(t: Tree, n: Region, s: string)
    requires Consistent(t) && n.id !in t.regions
    ensures Consistent(MutateAll(t, MutationsOf(t, SpawnRegion(n, s))))
  {
    SpawnedTree(t, n, s);
    ListedAfterSpawn(t, MutateAll(t, MutationsOf(t, SpawnRegion(n, s))), Spawned(n, s), s);
  }

  lemma ListedAfterSpawn(t: Tree, u: Tree, node: RegionNode, s: string)
    requires Consistent(t) && node.id !in t.regions && node.session == s
    requires u.regions == t.regions[node.id := node]
    requires var before := if s in t.sessions then t.sessions[s] else SessionNode(s, []);
             u.sessions == t.sessions[s := before.(regionIDs := before.regionIDs + [node.id])]
    ensures Consistent(u)
  {
    forall id | id in u.regions ensures RegionListed(u, id) {
      if id != node.id {
        assert RegionListed(t, id);
      }
    }
    forall x | x in u.sessions ensures SessionSound(u, x) {
      if x in t.sessions {
        assert SessionSound(t, x);
      }
    }
  }

  /** The regions and sessions after destroying a live region. */
  lemma DestroyedTree(t: Tree, id: string)
    requires id in t.regions && t.regions[id].session in t.sessions
    ensures var u := MutateAll(t, MutationsOf(t, DestroyRegion(id)));
            var s := t.regions[id].session;
            var rest := RemoveFirst(t.sessions[s].regionIDs, id);
            && u.regions == t.regions - {id}
            && u.sessions == (if rest == [] then t.sessions - {s}
              else t.sessions[s := t.sessions[s].(regionIDs := rest)])
            && u.clients == t.clients
  {
    var s := t.regions[id].session;
    if SessionIsEmptied(t, s, id) {
      assert MutationsOf(t, DestroyRegion(id)) ==
        [Mutation.DeleteRegion(id), Mutation.RemoveRegionFromSession(s, id), Mutation.DeleteSession(s)];
      MutateThree(t, Mutation.DeleteRegion(id), Mutation.RemoveRegionFromSession(s, id), Mutation.DeleteSession(s));
    } else {
      assert MutationsOf(t, DestroyRegion(id)) == [Mutation.DeleteRegion(id), Mutation.RemoveRegionFromSession(s, id)];
      MutateTwo(t, Mutation.DeleteRegion(id), Mutation.RemoveRegionFromSession(s, id));
    }
  }

  lemma DestroyKeepsConsistent(t: Tree, id: string)
    requires Consistent(t)
    ensures Consistent(MutateAll(t, MutationsOf(t, DestroyRegion(id))))
  {
    if id in t.regions {
      assert RegionListed(t, id);
      DestroyedTree(t, id);
      var u := MutateAll(t, MutationsOf(t, DestroyRegion(id)));
      var s := t.regions[id].session;
      assert SessionSound(t, s);
      RemoveFirstDistinct(t.sessions[s].regionIDs, id);
      forall x | x in u.regions ensures RegionListed(u, x) {
        assert RegionListed(t, x);
        if t.regions[x].session == s {
          assert x in RemoveFirst(t.sessions[s].regionIDs, id);
        }
      }
      forall x | x in u.sessions ensures SessionSound(u, x) {
        assert SessionSound(t, x);
      }
    }
  }

  /** What a request does to the keys of the tree. */
  function RegionKeys(t: Tree, r: Request): set<string> {
    if r.SpawnRegion? then t.regions.Keys + {r.region.id}
    else if r.DestroyRegion? then t.regions.Keys - {r.id}
    else t.regions.Keys
  }

  function ClientKeys(t: Tree, r: Request): set<string> {
    if r.AddClient? then t.clients.Keys + {Decimal(r.client)}
    else if r.RemoveClient? then t.clients.Keys - {Decimal(r.client)}
    else t.clients.Keys
  }

  predicate IsClientMutation(m: Mutation) {
    m.AddClient? || m.DeleteClient? || m.SetClientIdentity? || m.SetClientSubscription? || m.SetClientSession?
  }

  lemma ClientMutationLeaves(t: Tree, m: Mutation)
    requires IsClientMutation(m)
    ensures Mutate(t, m).regions == t.regions && Mutate(t, m).sessions == t.sessions
    ensures EditsClient(m) ==> Mutate(t, m).clients.Keys == t.clients.Keys
  {
  }

  lemma GeometryKeepsConsistent(t: Tree, id: string, n: RegionNode)
    requires Consistent(t) && id in t.regions && n.id == id && n.session == t.regions[id].session
    ensures Consistent(Mutate(t, Mutation.SetRegion(n)))
  {
    var u := Mutate(t, Mutation.SetRegion(n));
    forall x | x in u.regions ensures RegionListed(u, x) {
      assert RegionListed(t, x);
    }
    forall s | s in u.sessions ensures SessionSound(u, s) {
      assert SessionSound(t, s);
    }
  }

  lemma SameLists(t: Tree, u: Tree)
    requires Consistent(t) && u.regions == t.regions && u.sessions == t.sessions
    ensures Consistent(u)
  {
    forall x | x in u.regions ensures RegionListed(u, x) {
      assert RegionListed(t, x);
    }
    forall s | s in u.sessions ensures SessionSound(u, s) {
      assert SessionSound(t, s);
    }
  }

  lemma GeometryKept(t: Tree, id: string, w: int, h: int, n: int)
    requires Consistent(t)
    ensures var u := MutateAll(t, MutationsOf(t, SetRegionGeometry(id, w, h, n)));
            Consistent(u) && u.regions.Keys == t.regions.Keys && u.clients == t.clients
  {
    if id in t.regions {
      assert RegionListed(t, id);
      var node := t.regions[id].(width := w, height := h, scrollbackLen := n);
      MutateOne(t, Mutation.SetRegion(node));
      GeometryKeepsConsistent(t, id, node);
    }
  }

  /** Requests that touch no session list keep the tree consistent. */
  lemma OtherKeepsConsistent(t: Tree, r: Request)
    requires Consistent(t) && !r.SpawnRegion? && !r.DestroyRegion?
    ensures var u := MutateAll(t, MutationsOf(t, r));
            Consistent(u) && u.regions.Keys == t.regions.Keys && u.clients.Keys == ClientKeys(t, r)
  {
    if r.SetRegionGeometry? {
      GeometryKept(t, r.id, r.width, r.height, r.scrollbackLen);
      return;
    }
    var ms := MutationsOf(t, r);
    if ms != [] {
      assert ms == [ms[0]];
      MutateOne(t, ms[0]);
      ClientMutationLeaves(t, ms[0]);
      SameLists(t, Mutate(t, ms[0]));
    }
  }

  lemma SpawnKept(t: Tree, n: Region, s: string)
    requires Consistent(t) && n.id !in t.regions
    ensures var u := MutateAll(t, MutationsOf(t, SpawnRegion(n, s)));
            Consistent(u) && u.regions.Keys == t.regions.Keys + {n.id} && u.clients == t.clients
  {
    SpawnKeepsConsistent(t, n, s);
    SpawnedTree(t, n, s);
  }

  lemma DestroyKept(t: Tree, id: string)
    requires Consistent(t)
    ensures var u := MutateAll(t, MutationsOf(t, DestroyRegion(id)));
            Consistent(u) && u.regions.Keys == t.regions.Keys - {id} && u.clients == t.clients
  {
    DestroyKeepsConsistent(t, id);
    if id in t.regions {
      assert RegionListed(t, id);
      DestroyedTree(t, id);
    }
  }

  /** Every request keeps the tree consistent, given that spawned ids are new. */
  lemma TreeKept(t: Tree, r: Request)
    requires Consistent(t) && (r.SpawnRegion? ==> r.region.id !in t.regions)
    ensures var u := MutateAll(t, MutationsOf(t, r));
            Consistent(u) && u.regions.Keys == RegionKeys(t, r) && u.clients.Keys == ClientKeys(t, r)
  {
    if r.SpawnRegion? {
      SpawnKept(t, r.region, r.session);
    } else if r.DestroyRegion? {
      DestroyKept(t, r.id);
    } else {
      OtherKeepsConsistent(t, r);
    }
  }

  // ── The whole loop ─────────────────────────────────────────────────────────

  ghost predicate SubscriptionsLive(subs: map<nat, string>, clients: set<string>, regions: set<string>) {
    forall c :: c in subs ==> Decimal(c) in clients && subs[c] in regions
  }

  ghost predicate OverlaysAgree(ofClient: map<nat, string>, ofRegion: map<string, nat>, regions: set<string>) {
    && (forall c :: c in ofClient ==> ofClient[c] in ofRegion && ofRegion[ofClient[c]] == c)
    && (forall id :: id in ofRegion ==> id in regions)
  }

  /** Every region's actor sends to exactly the clients subscribed to it. */
  ghost predicate FanoutAgrees(fanout: map<string, set<nat>>, subs: map<nat, string>, regions: set<string>) {
    && fanout.Keys == regions
    && (forall id, c :: id in fanout ==> (c in fanout[id] <==> c in subs && subs[c] == id))
  }

  ghost predicate Inv(l: Loop) {
    && Consistent(l.tree)
    && SubscriptionsLive(l.subscriptions, l.tree.clients.Keys, l.tree.regions.Keys)
    && OverlaysAgree(l.clientOverlays, l.regionOverlays, l.tree.regions.Keys)
    && FanoutAgrees(l.fanout, l.subscriptions, l.tree.regions.Keys)
  }

  /** What the server guarantees of a request: a spawned region's id is new. */
  predicate Fresh(l: Loop, r: Request) {
    r.SpawnRegion? ==> r.region.id !in l.tree.regions
  }

  lemma SubscriptionsKept(l: Loop, r: Request)
    requires SubscriptionsLive(l.subscriptions, l.tree.clients.Keys, l.tree.regions.Keys)
    ensures SubscriptionsLive(SubscriptionsAfter(l, r), ClientKeys(l.tree, r), RegionKeys(l.tree, r))
  {
    var subs := SubscriptionsAfter(l, r);
    forall c | c in subs ensures Decimal(c) in ClientKeys(l.tree, r) && subs[c] in RegionKeys(l.tree, r) {
      if r.RemoveClient? && Decimal(c) == Decimal(r.client) {
        DecimalInjective(c, r.client);
      }
    }
  }

  lemma OverlaysKept(l: Loop, r: Request)
    requires OverlaysAgree(l.clientOverlays, l.regionOverlays, l.tree.regions.Keys)
    ensures OverlaysAgree(OverlaysAfter(l, r).0, OverlaysAfter(l, r).1, RegionKeys(l.tree, r))
  {
  }

  /** Moving a client from one region's actor to another's. */
  lemma SubscribeKeepsFanout(l: Loop, c: nat, id: string)
    requires FanoutAgrees(l.fanout, l.subscriptions, l.tree.regions.Keys)
    requires SubscriptionsLive(l.subscriptions, l.tree.clients.Keys, l.tree.regions.Keys)
    ensures FanoutAgrees(FanoutAfter(l, Subscribe(c, id)), SubscriptionsAfter(l, Subscribe(c, id)), l.tree.regions.Keys)
  {
  }

  lemma LeaveKeepsFanout(l: Loop, r: Request)
    requires r.RemoveClient? || r.Unsubscribe?
    requires FanoutAgrees(l.fanout, l.subscriptions, l.tree.regions.Keys)
    ensures FanoutAgrees(FanoutAfter(l, r), SubscriptionsAfter(l, r), l.tree.regions.Keys)
  {
  }

  lemma DestroyKeepsFanout(l: Loop, id: string)
    requires FanoutAgrees(l.fanout, l.subscriptions, l.tree.regions.Keys)
    ensures FanoutAgrees(FanoutAfter(l, DestroyRegion(id)), SubscriptionsAfter(l, DestroyRegion(id)),
      l.tree.regions.Keys - {id})
  {
  }

  lemma FanoutKept(l: Loop, r: Request)
    requires FanoutAgrees(l.fanout, l.subscriptions, l.tree.regions.Keys) && Fresh(l, r)
    requires SubscriptionsLive(l.subscriptions, l.tree.clients.Keys, l.tree.regions.Keys)
    ensures FanoutAgrees(FanoutAfter(l, r), SubscriptionsAfter(l, r), RegionKeys(l.tree, r))
  {
    if r.Subscribe? {
      SubscribeKeepsFanout(l, r.client, r.id);
    } else if r.DestroyRegion? {
      DestroyKeepsFanout(l, r.id);
    } else if r.RemoveClient? || r.Unsubscribe? {
      LeaveKeepsFanout(l, r);
    }
  }

  /** Every request keeps every invariant of the loop. */
  lemma HandleKeeps(l: Loop, r: Request)
    requires Inv(l) && Fresh(l, r)
    ensures Inv(Handle(l, r))
  {
    TreeKept(l.tree, r);
    SubscriptionsKept(l, r);
    OverlaysKept(l, r);
    FanoutKept(l, r);
  }

  function Run(l: Loop, rs: seq<Request>): Loop
    decreases |rs|
  {
    if rs == [] then l else Run(Handle(l, rs[0]), rs[1..])
  }

  ghost predicate AllFresh(l: Loop, rs: seq<Request>)
    decreases |rs|
  {
    rs == [] || (Fresh(l, rs[0]) && AllFresh(Handle(l, rs[0]), rs[1..]))
  }

  lemma {:induction false} RunKeeps(l: Loop, rs: seq<Request>)
    requires Inv(l) && AllFresh(l, rs)
    ensures Inv(Run(l, rs))
    decreases |rs|
  {
    if rs != [] {
      HandleKeeps(l, rs[0]);
      RunKeeps(Handle(l, rs[0]), rs[1..]);
    }
  }

  // ── What each request does ─────────────────────────────────────────────────

  /** The same fan-out but for client c. */
  ghost predicate SameFanoutBut(f: map<string, set<nat>>, g: map<string, set<nat>>, c: nat) {
    f.Keys == g.Keys && forall id, d :: id in f && d != c ==> (d in f[id] <==> d in g[id])
  }

  ghost predicate SentNothing(l: Loop, c: nat) {
    c !in l.subscriptions && forall id :: id in l.fanout ==> c !in l.fanout[id]
  }

  ghost predicate SameOverlays(l: Loop, m: Loop) {
    m.clientOverlays == l.clientOverlays && m.regionOverlays == l.regionOverlays
  }

  ghost predicate SameRegions(l: Loop, m: Loop) {
    m.tree.regions == l.tree.regions && m.tree.sessions == l.tree.sessions
  }

  /** c is sent region id and no other, the tree says so, and nothing else has changed. */
  ghost predicate NowSubscribed(l: Loop, m: Loop, c: nat, id: string) {
    && c in m.subscriptions && m.subscriptions[c] == id && SameBut(l.subscriptions, m.subscriptions, c)
    && (forall d :: d in m.fanout ==> (c in m.fanout[d] <==> d == id)) && SameFanoutBut(l.fanout, m.fanout, c)
    && Watches(l.tree, m.tree, c, id) && SameOverlays(l, m)
  }

  /** The tree says that c watches region id, and is the same otherwise. */
  ghost predicate Watches(t: Tree, u: Tree, c: nat, id: string) {
    && u == t.(clients := u.clients) && u.clients.Keys == t.clients.Keys && SameBut(t.clients, u.clients, Decimal(c))
    && (Decimal(c) in t.clients ==> u.clients[Decimal(c)] == t.clients[Decimal(c)].(subscribedRegionID := id))
  }

  lemma WatchDoes(t: Tree, c: nat, id: string)
    ensures Watches(t, MutateAll(t, [Mutation.SetClientSubscription(c, id)]), c, id)
  {
    MutateOne(t, Mutation.SetClientSubscription(c, id));
  }

  lemma SubscribeMoves(l: Loop, c: nat, id: string)
    requires FanoutAgrees(l.fanout, l.subscriptions, l.tree.regions.Keys)
    requires id in l.tree.regions && Decimal(c) in l.tree.clients
    ensures var subs, fanout := SubscriptionsAfter(l, Subscribe(c, id)), FanoutAfter(l, Subscribe(c, id));
            && c in subs && subs[c] == id && SameBut(l.subscriptions, subs, c)
            && (forall d :: d in fanout ==> (c in fanout[d] <==> d == id)) && SameFanoutBut(l.fanout, fanout, c)
  {
  }

  lemma SubscribeDoes(l: Loop, m: Loop, c: nat, id: string)
    requires Inv(l) && id in l.tree.regions && Decimal(c) in l.tree.clients && m == Handle(l, Subscribe(c, id))
    ensures NowSubscribed(l, m, c, id)
  {
    SubscribeMoves(l, c, id);
    WatchDoes(l.tree, c, id);
  }

  ghost predicate NowUnsubscribed(l: Loop, m: Loop, c: nat) {
    && SentNothing(m, c) && SameBut(l.subscriptions, m.subscriptions, c) && SameFanoutBut(l.fanout, m.fanout, c)
    && Watches(l.tree, m.tree, c, "") && SameOverlays(l, m)
  }

  lemma DropMoves(l: Loop, r: Request, c: nat)
    requires FanoutAgrees(l.fanout, l.subscriptions, l.tree.regions.Keys)
    requires (r.Unsubscribe? || r.RemoveClient?) && r.client == c
    ensures var subs, fanout := SubscriptionsAfter(l, r), FanoutAfter(l, r);
            && c !in subs && (forall id :: id in fanout ==> c !in fanout[id])
            && SameBut(l.subscriptions, subs, c) && SameFanoutBut(l.fanout, fanout, c)
  {
  }

  lemma UnsubscribeDoes(l: Loop, m: Loop, c: nat)
    requires Inv(l) && m == Handle(l, Unsubscribe(c))
    ensures NowUnsubscribed(l, m, c)
  {
    DropMoves(l, Unsubscribe(c), c);
    WatchDoes(l.tree, c, "");
  }

  /** A refused subscribe changes nothing. */
  lemma RefusedSubscribe(l: Loop, c: nat, id: string)
    requires Inv(l) && !(id in l.tree.regions && Decimal(c) in l.tree.clients)
    ensures Handle(l, Subscribe(c, id)) == l
  {
  }

  /** Nor does anything asked of a region that is not live. */
  lemma RefusedRegion(l: Loop, id: string, w: int, h: int, n: int)
    requires Inv(l) && id !in l.tree.regions
    ensures Handle(l, DestroyRegion(id)) == Handle(l, SetRegionGeometry(id, w, h, n)) == l
  {
  }

  /** c is gone: sent nothing, not in the tree, owner of no overlay it held; nobody else is touched. */
  ghost predicate NowGone(l: Loop, m: Loop, c: nat) {
    && SentNothing(m, c) && SameBut(l.subscriptions, m.subscriptions, c) && SameFanoutBut(l.fanout, m.fanout, c)
    && m.tree == l.tree.(clients := l.tree.clients - {Decimal(c)})
    && c !in m.clientOverlays && SameBut(l.clientOverlays, m.clientOverlays, c)
    && (if c in l.clientOverlays then
          l.clientOverlays[c] !in m.regionOverlays && SameBut(l.regionOverlays, m.regionOverlays, l.clientOverlays[c])
        else m.regionOverlays == l.regionOverlays)
  }

  lemma RemoveClientDoes(l: Loop, m: Loop, c: nat)
    requires Inv(l) && m == Handle(l, RemoveClient(c))
    ensures NowGone(l, m, c)
  {
    DropMoves(l, RemoveClient(c), c);
    MutateOne(l.tree, Mutation.DeleteClient(c));
  }

  /** c is in the tree with nothing known of it yet. */
  ghost predicate NowConnected(l: Loop, m: Loop, c: nat) {
    && Decimal(c) in m.tree.clients && m.tree.clients[Decimal(c)] == ClientNode(Decimal(c), "", "", 0, "", "", "")
    && SameBut(l.tree.clients, m.tree.clients, Decimal(c)) && SameRegions(l, m) && SameOverlays(l, m)
    && m.subscriptions == l.subscriptions && m.fanout == l.fanout
  }

  lemma AddClientDoes(l: Loop, m: Loop, c: nat)
    requires m == Handle(l, Request.AddClient(c))
    ensures NowConnected(l, m, c)
  {
    MutateOne(l.tree, Mutation.AddClient(c));
  }

  /** The region is live, last in its session, and sent to nobody yet. */
  ghost predicate NowLive(l: Loop, m: Loop, r: Region, session: string) {
    && r.id in m.tree.regions && SameBut(l.tree.regions, m.tree.regions, r.id)
    && m.tree.regions[r.id] ==
         RegionNode(r.id, r.name, r.cmd, r.pid, session, r.width, r.height, r.native, r.scrollbackLen)
    && session in m.tree.sessions && SameBut(l.tree.sessions, m.tree.sessions, session)
    && m.tree.sessions[session].regionIDs ==
         (if session in l.tree.sessions then l.tree.sessions[session].regionIDs else []) + [r.id]
    && r.id in m.fanout && m.fanout[r.id] == {} && SameBut(l.fanout, m.fanout, r.id)
    && m.tree.clients == l.tree.clients && m.subscriptions == l.subscriptions && SameOverlays(l, m)
  }

  lemma SpawnDoes(l: Loop, m: Loop, r: Region, session: string)
    requires m == Handle(l, SpawnRegion(r, session))
    ensures NowLive(l, m, r, session)
  {
    SpawnedTree(l.tree, r, session);
  }

  /** The region is gone from the tree and its session; nobody is subscribed to it and it has no overlay. */
  ghost predicate NowDead(l: Loop, m: Loop, id: string) {
    && id !in m.tree.regions && SameBut(l.tree.regions, m.tree.regions, id) && m.tree.clients == l.tree.clients
    && (forall s :: s in m.tree.sessions ==> id !in m.tree.sessions[s].regionIDs)
    && id !in m.fanout && SameBut(l.fanout, m.fanout, id)
    && (forall c :: c in m.subscriptions <==> c in l.subscriptions && l.subscriptions[c] != id)
    && (forall c :: c in m.subscriptions ==> m.subscriptions[c] == l.subscriptions[c])
    && OverlayDropped(l.clientOverlays, l.regionOverlays, m.clientOverlays, m.regionOverlays, id)
  }

  ghost predicate OverlayDropped(ofClient: map<nat, string>, ofRegion: map<string, nat>,
                                 ofClientNow: map<nat, string>, ofRegionNow: map<string, nat>, id: string)
  {
    && id !in ofRegionNow && SameBut(ofRegion, ofRegionNow, id)
    && (forall c :: c in ofClientNow <==> c in ofClient && !(id in ofRegion && ofRegion[id] == c))
    && (forall c :: c in ofClientNow ==> ofClientNow[c] == ofClient[c] && ofClient[c] != id)
  }

  lemma DestroyMoves(l: Loop, id: string)
    requires OverlaysAgree(l.clientOverlays, l.regionOverlays, l.tree.regions.Keys) && id in l.tree.regions
    ensures var subs, fanout := SubscriptionsAfter(l, DestroyRegion(id)), FanoutAfter(l, DestroyRegion(id));
            && id !in fanout && SameBut(l.fanout, fanout, id)
            && (forall c :: c in subs <==> c in l.subscriptions && l.subscriptions[c] != id)
            && (forall c :: c in subs ==> subs[c] == l.subscriptions[c])
    ensures var overlays := OverlaysAfter(l, DestroyRegion(id));
            OverlayDropped(l.clientOverlays, l.regionOverlays, overlays.0, overlays.1, id)
  {
  }

  lemma DestroyUproots(t: Tree, id: string)
    requires Consistent(t) && id in t.regions
    ensures var u := MutateAll(t, MutationsOf(t, DestroyRegion(id)));
            && id !in u.regions && SameBut(t.regions, u.regions, id) && u.clients == t.clients
            && forall s :: s in u.sessions ==> id !in u.sessions[s].regionIDs
  {
    var u := MutateAll(t, MutationsOf(t, DestroyRegion(id)));
    DestroyKept(t, id);
    assert RegionListed(t, id);
    DestroyedTree(t, id);
    forall s | s in u.sessions ensures id !in u.sessions[s].regionIDs {
      assert SessionSound(u, s);
    }
  }

  lemma DestroyDoes(l: Loop, m: Loop, id: string)
    requires Inv(l) && id in l.tree.regions && m == Handle(l, DestroyRegion(id))
    ensures NowDead(l, m, id)
  {
    DestroyMoves(l, id);
    DestroyUproots(l.tree, id);
  }

  /**
   Destroying a region leaves every overlay on another region alone exactly when
   its mapping is not a stale one: a client that has moved its overlay away from
   the region loses it on the region it moved to.
   */
  lemma DestroySparesOthersIff(l: Loop, id: string)
    requires Inv(l) && id in l.tree.regions
    ensures var m := Handle(l, DestroyRegion(id));
            (forall c :: c in l.clientOverlays && l.clientOverlays[c] != id ==> c in m.clientOverlays)
            <==> (id in l.regionOverlays && l.regionOverlays[id] in l.clientOverlays ==>
                    l.clientOverlays[l.regionOverlays[id]] == id)
  {
  }

  /** The failing input: a client moves its overlay from region a to region b, and a is destroyed. */
  lemma DestroyTakesAMovedOverlay(l: Loop, c: nat, a: string, b: string)
    requires a in l.tree.regions && b in l.tree.regions && a != b
    requires l.clientOverlays == map[] && l.regionOverlays == map[]
    ensures var m := Handle(Handle(l, RegisterOverlay(c, a, true)), RegisterOverlay(c, b, true));
            var n := Handle(m, DestroyRegion(a));
            && c in m.clientOverlays && m.clientOverlays[c] == b
            && c !in n.clientOverlays && b in n.regionOverlays && n.regionOverlays[b] == c
  {
  }

  /** c owns the overlay of region id, whoever did before does not, and nothing else has changed. */
  ghost predicate NowOwns(l: Loop, m: Loop, c: nat, id: string) {
    && id in m.regionOverlays && m.regionOverlays[id] == c && SameBut(l.regionOverlays, m.regionOverlays, id)
    && c in m.clientOverlays && m.clientOverlays[c] == id
    && (forall d :: d != c && id in l.regionOverlays && l.regionOverlays[id] == d ==> d !in m.clientOverlays)
    && (forall d :: d != c && !(id in l.regionOverlays && l.regionOverlays[id] == d) ==>
          (d in m.clientOverlays <==> d in l.clientOverlays)
          && (d in m.clientOverlays ==> m.clientOverlays[d] == l.clientOverlays[d]))
    && m.tree == l.tree && m.subscriptions == l.subscriptions && m.fanout == l.fanout
  }

  lemma RegisterDoes(l: Loop, m: Loop, c: nat, id: string, accepted: bool)
    requires m == Handle(l, RegisterOverlay(c, id, accepted))
    ensures if id in l.tree.regions && accepted then NowOwns(l, m, c, id) else m == l
  {
  }

  /** The overlay is gone on both sides, and input for the region goes to the region. */
  ghost predicate NowCleared(l: Loop, m: Loop, c: nat, id: string) {
    && id !in m.regionOverlays && SameBut(l.regionOverlays, m.regionOverlays, id)
    && c !in m.clientOverlays && SameBut(l.clientOverlays, m.clientOverlays, c)
    && (id in m.tree.regions ==> RouteOf(m, id) == ToRegion(id))
    && m.tree == l.tree && m.subscriptions == l.subscriptions && m.fanout == l.fanout
  }

  lemma ClearDoes(l: Loop, m: Loop, c: nat, id: string)
    requires m == Handle(l, ClearOverlay(c, id))
    ensures if id in l.regionOverlays && l.regionOverlays[id] == c then NowCleared(l, m, c, id) else m == l
  {
  }

  /** A client's session is the only thing that changes. */
  lemma SetSessionDoes(l: Loop, c: nat, session: string)
    ensures var m := Handle(l, SetSession(c, session));
            && m == l.(tree := l.tree.(clients := m.tree.clients))
            && m.tree.clients.Keys == l.tree.clients.Keys && SameBut(l.tree.clients, m.tree.clients, Decimal(c))
            && (Decimal(c) in l.tree.clients ==>
                  m.tree.clients[Decimal(c)] == l.tree.clients[Decimal(c)].(session := session))
  {
    MutateOne(l.tree, Mutation.SetClientSession(c, session));
  }

  /** A client's identity is the only thing that changes. */
  lemma IdentifyDoes(l: Loop, c: nat, i: Identity)
    ensures var m := Handle(l, Identify(c, i));
            && m == l.(tree := l.tree.(clients := m.tree.clients))
            && m.tree.clients.Keys == l.tree.clients.Keys && SameBut(l.tree.clients, m.tree.clients, Decimal(c))
            && (Decimal(c) in l.tree.clients ==>
                  var before, now := l.tree.clients[Decimal(c)], m.tree.clients[Decimal(c)];
                  && now.hostname == i.hostname && now.username == i.username && now.pid == i.pid
                  && now.process == i.process && now.id == before.id && now.session == before.session
                  && now.subscribedRegionID == before.subscribedRegionID)
  {
    MutateOne(l.tree, Mutation.SetClientIdentity(c, i));
  }

  /** A live region's geometry is the only thing that changes. */
  lemma GeometryDoes(l: Loop, id: string, w: int, h: int, n: int)
    requires Consistent(l.tree)
    ensures var m := Handle(l, SetRegionGeometry(id, w, h, n));
            && m == l.(tree := l.tree.(regions := m.tree.regions))
            && m.tree.regions.Keys == l.tree.regions.Keys && SameBut(l.tree.regions, m.tree.regions, id)
            && (id in l.tree.regions ==>
                  m.tree.regions[id] == l.tree.regions[id].(width := w, height := h, scrollbackLen := n))
  {
    if id in l.tree.regions {
      assert RegionListed(l.tree, id);
      MutateOne(l.tree, Mutation.SetRegion(l.tree.regions[id].(width := w, height := h, scrollbackLen := n)));
    } else {
      assert MutateAll(l.tree, []) == l.tree;
    }
  }

  // ── Input routing ──────────────────────────────────────────────────────────

  datatype Route = Nowhere | ToOverlay(client: nat) | ToRegion(id: string)

  function RouteOf(l: Loop, id: string): Route {
    if id !in l.tree.regions then Nowhere
    else if id in l.regionOverlays && Decimal(l.regionOverlays[id]) in l.tree.clients
      then ToOverlay(l.regionOverlays[id])
    else ToRegion(id)
  }

  /**
   However owners re-registered or left, after any run input for a live region
   goes to a connected client that registered over it last, or to the region.
   */
  lemma InputGoesSomewhereLive(l: Loop, rs: seq<Request>, id: string)
    requires Inv(l) && AllFresh(l, rs)
    ensures var m := Run(l, rs);
            && (RouteOf(m, id).Nowhere? <==> id !in m.tree.regions)
            && (RouteOf(m, id).ToRegion? ==> RouteOf(m, id).id == id && id in m.tree.regions)
            && (RouteOf(m, id).ToOverlay? ==> Decimal(RouteOf(m, id).client) in m.tree.clients)
            && (forall c :: c in m.clientOverlays && m.clientOverlays[c] == id && Decimal(c) in m.tree.clients
                            ==> RouteOf(m, id) == ToOverlay(c))
  {
    RunKeeps(l, rs);
  }

  /** The overlay maps also agree in the other direction. */
  ghost predicate NoStaleOverlay(ofClient: map<nat, string>, ofRegion: map<string, nat>) {
    forall id :: id in ofRegion ==> ofRegion[id] in ofClient && ofClient[ofRegion[id]] == id
  }

  /**
   The two overlay maps mirror each other after a registration exactly when the
   client had no overlay on another region: the code drops the previous owner's
   mapping, but not the client's own previous region.
   */
  lemma RegistrationMirrorsIff(l: Loop, c: nat, id: string)
    requires OverlaysAgree(l.clientOverlays, l.regionOverlays, l.tree.regions.Keys)
    requires NoStaleOverlay(l.clientOverlays, l.regionOverlays) && id in l.tree.regions
    ensures var m := OverlaysAfter(l, RegisterOverlay(c, id, true));
            NoStaleOverlay(m.0, m.1) <==> (c !in l.clientOverlays || l.clientOverlays[c] == id)
  {
    var m := OverlaysAfter(l, RegisterOverlay(c, id, true));
    if c in l.clientOverlays && l.clientOverlays[c] != id {
      var before := l.clientOverlays[c];
      assert before in m.1 && m.1[before] == c && m.0[c] == id;
    }
  }

  /** The failing input: a client moves its overlay and disconnects, leaving its first region's mapping behind. */
  lemma MovedOverlayOutlivesItsOwner(l: Loop, c: nat, a: string, b: string)
    requires Inv(l) && a in l.tree.regions && b in l.tree.regions && a != b
    ensures var m := Run(l, [RegisterOverlay(c, a, true), RegisterOverlay(c, b, true), RemoveClient(c)]);
            a in m.regionOverlays && m.regionOverlays[a] == c && Decimal(c) !in m.tree.clients
            && RouteOf(m, a) == ToRegion(a)
  {
    var l1 := Handle(l, RegisterOverlay(c, a, true));
    var l2 := Handle(l1, RegisterOverlay(c, b, true));
    var l3 := Handle(l2, RemoveClient(c));
    RunThree(l, RegisterOverlay(c, a, true), RegisterOverlay(c, b, true), RemoveClient(c));
    Registered(l, c, a);
    Registered(l1, c, b);
    Removed(l2, c, a, b);
  }

  lemma RunTwo(l: Loop, a: Request, b: Request)
    ensures Run(l, [a, b]) == Handle(Handle(l, a), b)
  {
    assert [a, b][1..] == [b] && [b][1..] == [];
    assert Run(Handle(l, a), [b]) == Run(Handle(Handle(l, a), b), []);
  }

  lemma RunThree(l: Loop, a: Request, b: Request, c: Request)
    ensures Run(l, [a, b, c]) == Handle(Handle(Handle(l, a), b), c)
  {
    assert [a, b, c][1..] == [b, c];
    RunTwo(Handle(l, a), b, c);
  }

  lemma Registered(l: Loop, c: nat, id: string)
    requires id in l.tree.regions
    ensures var m := Handle(l, RegisterOverlay(c, id, true));
            && m.tree == l.tree && c in m.clientOverlays && m.clientOverlays[c] == id
            && m.regionOverlays == l.regionOverlays[id := c]
  {
  }

  lemma Removed(l: Loop, c: nat, a: string, b: string)
    requires a in l.tree.regions && a in l.regionOverlays && l.regionOverlays[a] == c
    requires c in l.clientOverlays && l.clientOverlays[c] == b && a != b
    ensures var m := Handle(l, RemoveClient(c));
            && a in m.regionOverlays && m.regionOverlays[a] == c && Decimal(c) !in m.tree.clients
            && RouteOf(m, a) == ToRegion(a)
  {
    MutateOne(l.tree, Mutation.DeleteClient(c));
  }

  // ── The loop itself ────────────────────────────────────────────────────────

  /**
   A client that adopts its greeting and then gets the broadcast of the request
   that added it is in step from the start, whatever its store held.
   */
  lemma NewClientIsInStep(t: Tree, version: nat, c: nat, r: Replica)
    ensures var ms := MutationsOf(t, Request.AddClient(c));
            var greeted := Receive(r, Snapshot(version, t)).0;
            Receive(greeted, Events(version + 1, EmittedAll(t, ms))) ==
              (Replica(MutateAll(t, ms), version + 1, true), true)
  {
    var ms := MutationsOf(t, Request.AddClient(c));
    ClientMutationsAreSlashFree(ms[0]);
    TransactionReplays(t, ms);
  }

  class EventLoopState {
    const tree: ServerTree
    var subscriptions: map<nat, string>
    var clientOverlays: map<nat, string>
    var regionOverlays: map<string, nat>

    // The clients each region's actor sends to.
    var actors: map<string, set<nat>>

    function State(): Loop
      reads this, tree
    {
      Loop(tree.View(), subscriptions, clientOverlays, regionOverlays, actors)
    }

    /** The open transaction so far: exactly these mutations, on the tree the request found. */
    ghost predicate InRequest(ms: seq<Mutation>)
      reads tree
    {
      tree.Valid() && tree.inTx && tree.log == ms
    }

    constructor (server: ServerNode)
      ensures tree.Valid() && !tree.inTx && Inv(State()) && fresh(tree)
    {
      tree := new ServerTree(server);
      subscriptions, clientOverlays, regionOverlays, actors := map[], map[], map[], map[];
    }

    /** The new client is greeted with the tree as it was before it joined; its own node comes with the commit. */
    method HandleAddClient(client: nat) returns (greeting: Message)
      requires InRequest([])
      modifies tree
      ensures greeting == Snapshot(old(tree.version), old(tree.View()))
      ensures InRequest(MutationsOf(old(tree.View()), Request.AddClient(client))) && tree.base == old(tree.base)
      ensures State() == Handle(old(State()), Request.AddClient(client)) && tree.version == old(tree.version)
    {
      greeting := tree.TakeSnapshot();
      tree.AddClient(client);
    }

    /** RemoveSubscriber on the actor of a region, if it is live. */
    method RemoveSubscriber(id: string, client: nat)
      modifies this`actors
      ensures actors == Without(old(actors), id, client)
    {
      if id in actors {
        actors := actors[id := actors[id] - {client}];
      }
    }

    method DropSubscription(client: nat)
      modifies this`subscriptions, this`actors
      ensures subscriptions == old(subscriptions) - {client}
      ensures actors == if client in old(subscriptions) then Without(old(actors), old(subscriptions)[client], client)
        else old(actors)
    {
      if client in subscriptions {
        var id := subscriptions[client];
        subscriptions := subscriptions - {client};
        RemoveSubscriber(id, client);
      } else {
        assert subscriptions - {client} == subscriptions;
      }
    }

    /** Returns the native regions the client drove; their actors are told to exit. */
    method HandleRemoveClient(client: nat) returns (orphaned: set<string>)
      requires InRequest([])
      modifies this, tree
      ensures InRequest(MutationsOf(old(tree.View()), RemoveClient(client))) && tree.base == old(tree.base)
      ensures State() == Handle(old(State()), RemoveClient(client)) && tree.version == old(tree.version)
      ensures forall id :: id in old(regionOverlays) && old(regionOverlays)[id] != client ==>
                id in regionOverlays && regionOverlays[id] == old(regionOverlays)[id]
      ensures orphaned == set id | id in old(tree.regions) && old(tree.regions)[id].region.native
                                   && old(tree.regions)[id].region.driver == client
    {
      DropSubscription(client);
      if client in clientOverlays {
        var id := clientOverlays[client];
        clientOverlays := clientOverlays - {client};
        if id in regionOverlays && regionOverlays[id] == client {
          regionOverlays := regionOverlays - {id};
        }
      }
      orphaned := set id | id in tree.regions && tree.regions[id].region.native &&
        tree.regions[id].region.driver == client;
      tree.DeleteClient(client);
    }

    /** Puts a region into the tree and into its session, making the session if need be. */
    method Plant(r: Region, session: string) returns (created: bool)
      requires InRequest([]) && r.session == session
      modifies tree
      ensures InRequest(MutationsOf(old(tree.View()), SpawnRegion(r, session))) && tree.base == old(tree.base)
      ensures tree.View() == MutateAll(old(tree.View()), MutationsOf(old(tree.View()), SpawnRegion(r, session)))
      ensures tree.version == old(tree.version) && created == (session !in old(tree.sessions))
    {
      tree.SetRegion(r);
      created := tree.EnsureSession(session);
      tree.AddRegionToSession(session, r.id);
    }

    method HandleSpawnRegion(region: Region, session: string) returns (created: bool)
      requires InRequest([])
      modifies this`actors, tree
      ensures InRequest(MutationsOf(old(tree.View()), SpawnRegion(region, session))) && tree.base == old(tree.base)
      ensures State() == Handle(old(State()), SpawnRegion(region, session)) && tree.version == old(tree.version)
      ensures created == (session !in old(tree.sessions))
    {
      created := Plant(region.(session := session), session);
      actors := actors[region.id := {}];
    }

    /** Afterwards a connected client is sent a live region, and no other. */
    method HandleSubscribe(client: nat, id: string) returns (ok: bool)
      requires InRequest([]) && actors.Keys == tree.regions.Keys
      modifies this`subscriptions, this`actors, tree
      ensures InRequest(MutationsOf(old(tree.View()), Subscribe(client, id))) && tree.base == old(tree.base)
      ensures State() == Handle(old(State()), Subscribe(client, id)) && tree.version == old(tree.version)
      ensures ok == (id in old(tree.regions) && Decimal(client) in old(tree.clients))
      ensures ok ==> client in subscriptions && subscriptions[client] == id && id in actors && client in actors[id]
      ensures ok && Inv(old(State())) ==> NowSubscribed(old(State()), State(), client, id)
    {
      ghost var l := State();
      ok := MoveSubscription(client, id);
      if ok && Inv(l) {
        SubscribeDoes(l, State(), client, id);
      }
    }

    method MoveSubscription(client: nat, id: string) returns (ok: bool)
      requires InRequest([]) && actors.Keys == tree.regions.Keys
      modifies this`subscriptions, this`actors, tree
      ensures InRequest(MutationsOf(old(tree.View()), Subscribe(client, id))) && tree.base == old(tree.base)
      ensures State() == Handle(old(State()), Subscribe(client, id)) && tree.version == old(tree.version)
      ensures ok == (id in old(tree.regions) && Decimal(client) in old(tree.clients))
      ensures ok ==> client in subscriptions && subscriptions[client] == id && id in actors && client in actors[id]
    {
      if id !in tree.regions {
        return false;
      }
      if client in subscriptions && subscriptions[client] != id {
        RemoveSubscriber(subscriptions[client], client);
      }
      if Decimal(client) !in tree.clients {
        return false;
      }
      actors := actors[id := actors[id] + {client}];
      subscriptions := subscriptions[client := id];
      tree.SetClientSubscription(client, id);
      return true;
    }

    /** Afterwards the client is sent nothing. */
    method HandleUnsubscribe(client: nat)
      requires InRequest([])
      modifies this`subscriptions, this`actors, tree
      ensures InRequest(MutationsOf(old(tree.View()), Unsubscribe(client))) && tree.base == old(tree.base)
      ensures State() == Handle(old(State()), Unsubscribe(client)) && tree.version == old(tree.version)
      ensures client !in subscriptions
      ensures Inv(old(State())) ==> NowUnsubscribed(old(State()), State(), client)
    {
      ghost var l := State();
      EndSubscription(client);
      if Inv(l) {
        UnsubscribeDoes(l, State(), client);
      }
    }

    method EndSubscription(client: nat)
      requires InRequest([])
      modifies this`subscriptions, this`actors, tree
      ensures InRequest(MutationsOf(old(tree.View()), Unsubscribe(client))) && tree.base == old(tree.base)
      ensures State() == Handle(old(State()), Unsubscribe(client)) && tree.version == old(tree.version)
      ensures client !in subscriptions
    {
      DropSubscription(client);
      tree.SetClientSubscription(client, "");
    }

    /** Drops every subscription to a destroyed region. */
    method DropSubscribers(id: string)
      modifies this`subscriptions
      ensures subscriptions == map c | c in old(subscriptions) && old(subscriptions)[c] != id :: old(subscriptions)[c]
    {
      var pending := subscriptions.Keys;
      while pending != {}
        invariant pending <= subscriptions.Keys <= old(subscriptions).Keys
        invariant forall c :: c in subscriptions ==> subscriptions[c] == old(subscriptions)[c]
        invariant forall c :: c in old(subscriptions) && c !in pending ==>
          (c in subscriptions <==> old(subscriptions)[c] != id)
        decreases pending
      {
        var c :| c in pending;
        if subscriptions[c] == id {
          subscriptions := subscriptions - {c};
        }
        pending := pending - {c};
      }
    }

    method DropOverlay(id: string)
      modifies this`clientOverlays, this`regionOverlays
      ensures clientOverlays == if id in old(regionOverlays) then old(clientOverlays) - {old(regionOverlays)[id]}
        else old(clientOverlays)
      ensures regionOverlays == if id in old(regionOverlays) then old(regionOverlays) - {id} else old(regionOverlays)
    {
      if id in regionOverlays {
        clientOverlays := clientOverlays - {regionOverlays[id]};
        regionOverlays := regionOverlays - {id};
      }
    }

    /** Takes a region out of the tree and out of the session it names. */
    method Unlink(id: string, session: string)
      requires InRequest([])
      modifies tree
      ensures var m1, m2 := Mutation.DeleteRegion(id), Mutation.RemoveRegionFromSession(session, id);
              InRequest([m1, m2]) && tree.View() == Mutate(Mutate(old(tree.View()), m1), m2)
      ensures tree.base == old(tree.base) && tree.version == old(tree.version)
    {
      tree.DeleteRegion(id);
      tree.RemoveRegionFromSession(session, id);
    }

    /** Takes a live region out of the tree, and its session too when that empties it. */
    method Uproot(id: string) returns (sessionRemoved: bool)
      requires InRequest([]) && id in tree.regions
      modifies tree
      ensures InRequest(MutationsOf(old(tree.View()), DestroyRegion(id))) && tree.base == old(tree.base)
      ensures tree.View() == MutateAll(old(tree.View()), MutationsOf(old(tree.View()), DestroyRegion(id)))
      ensures tree.version == old(tree.version)
    {
      ghost var t := tree.View();
      var session := tree.regions[id].region.session;
      assert session == t.regions[id].session;
      Unlink(id, session);
      sessionRemoved := session in tree.sessions && |tree.sessions[session].regionIDs| == 0;
      Emptied(t, session, id);
      if sessionRemoved {
        tree.DeleteSession(session);
      }
    }

    method HandleDestroyRegion(id: string) returns (found: bool)
      requires InRequest([]) && actors.Keys == tree.regions.Keys
      modifies this, tree
      ensures InRequest(MutationsOf(old(tree.View()), DestroyRegion(id))) && tree.base == old(tree.base)
      ensures State() == Handle(old(State()), DestroyRegion(id)) && tree.version == old(tree.version)
      ensures found == (id in old(tree.regions))
    {
      if id !in tree.regions {
        assert actors - {id} == actors;
        return false;
      }
      var _ := Uproot(id);
      DropOverlay(id);
      DropSubscribers(id);
      actors := actors - {id};
      return true;
    }

    method HandleSetClientSession(client: nat, session: string)
      requires InRequest([])
      modifies tree
      ensures InRequest(MutationsOf(old(tree.View()), SetSession(client, session))) && tree.base == old(tree.base)
      ensures State() == Handle(old(State()), SetSession(client, session)) && tree.version == old(tree.version)
    {
      tree.SetClientSession(client, session);
    }

    method HandleIdentify(client: nat, identity: Identity)
      requires InRequest([])
      modifies tree
      ensures InRequest(MutationsOf(old(tree.View()), Identify(client, identity))) && tree.base == old(tree.base)
      ensures State() == Handle(old(State()), Identify(client, identity)) && tree.version == old(tree.version)
    {
      tree.SetClientIdentity(client, identity);
    }

    method HandleSetRegionGeometry(id: string, width: int, height: int, scrollbackLen: int)
      requires InRequest([])
      modifies tree
      ensures InRequest(MutationsOf(old(tree.View()), SetRegionGeometry(id, width, height, scrollbackLen))) &&
        tree.base == old(tree.base)
      ensures State() == Handle(old(State()), SetRegionGeometry(id, width, height, scrollbackLen)) &&
        tree.version == old(tree.version)
    {
      if id in tree.regions {
        var r := tree.regions[id].region.(width := width, height := height, scrollbackLen := scrollbackLen);
          tree.SetRegion(r);
      }
    }

    /** accepted is the region actor's answer. */
    method HandleOverlayRegister(client: nat, id: string, accepted: bool)
      requires InRequest([])
      modifies this`clientOverlays, this`regionOverlays
      ensures State() == Handle(old(State()), RegisterOverlay(client, id, accepted))
    {
      if id !in tree.regions || !accepted {
        return;
      }
      if id in regionOverlays && regionOverlays[id] != client {
        clientOverlays := clientOverlays - {regionOverlays[id]};
      } else {
        assert clientOverlays - {} == clientOverlays;
      }
      clientOverlays := clientOverlays[client := id];
      regionOverlays := regionOverlays[id := client];
    }

    method HandleOverlayClear(client: nat, id: string)
      requires InRequest([])
      modifies this`clientOverlays, this`regionOverlays
      ensures State() == Handle(old(State()), ClearOverlay(client, id))
      ensures if id in old(regionOverlays) && old(regionOverlays)[id] == client
                then NowCleared(old(State()), State(), client, id)
              else State() == old(State())
    {
      if id !in regionOverlays || regionOverlays[id] != client {
        return;
      }
      regionOverlays := regionOverlays - {id};
      clientOverlays := clientOverlays - {client};
    }

    method RouteInput(id: string) returns (route: Route)
      requires tree.Valid()
      ensures route == RouteOf(State(), id)
    {
      if id !in tree.regions {
        return Nowhere;
      }
      if id in regionOverlays {
        var c := regionOverlays[id];
        if Decimal(c) in tree.clients {
          return ToOverlay(c);
        }
      }
      return ToRegion(id);
    }

    /**
     The end of every request: the ops broadcast replay the request on any
     replica of the tree it found, versions are consecutive, and a request
     without ops changed nothing.
     */
    method CommitAndBroadcast(ghost ms: seq<Mutation>) returns (v: nat, ops: seq<TreeOp>)
      requires InRequest(ms)
      modifies tree
      ensures tree.Valid() && !tree.inTx && State() == old(State())
      ensures AllSlashFree(ms) ==> ApplyOps(old(tree.base), ops) == tree.View()
      ensures if ops == [] then tree.version == old(tree.version) && tree.View() == old(tree.base)
              else v == tree.version == old(tree.version) + 1
    {
      v, ops := tree.CommitTx();
    }
  }

  /** Removing the id from a session empties it whether or not the region itself is already gone. */
  lemma Emptied(t: Tree, session: string, id: string)
    ensures var u := Mutate(Mutate(t, Mutation.DeleteRegion(id)), Mutation.RemoveRegionFromSession(session, id));
            (session in u.sessions && u.sessions[session].regionIDs == []) <==> SessionIsEmptied(t, session, id)
  {
  }
}
