/**
 The tabs of one session on the client (internal/tui/session.go): reconciling
 them with the replicated tree, switching, and the race between a spawn's
 response and its tree event.
 */
module Tabs {
  import opened Options

  /** term identifies the terminal object a tab owns. */
  datatype Tab = Tab(regionID: string, name: string, term: nat)

  /** subscribed: the region whose output was asked for last. nextTerm: the next terminal to be made. */
  datatype Session = Session(tabs: seq<Tab>, active: nat, pending: string, subscribed: string, nextTerm: nat)

  // ── What reconciling means ─────────────────────────────────────────────────

  ghost predicate Unique(tabs: seq<Tab>) {
    forall i, j :: 0 <= i < j < |tabs| ==> tabs[i].regionID != tabs[j].regionID
  }

  function IndexFrom(tabs: seq<Tab>, id: string, from: nat): (k: nat)
    requires from <= |tabs|
    ensures from <= k <= |tabs| && (k < |tabs| ==> tabs[k].regionID == id)
    ensures forall i :: from <= i < k ==> tabs[i].regionID != id
    decreases |tabs| - from
  {
    if from == |tabs| || tabs[from].regionID == id then from else IndexFrom(tabs, id, from + 1)
  }

  /** The index of the tab of a region, or the number of tabs. */
  function TabIndex(tabs: seq<Tab>, id: string): (k: nat)
    ensures k <= |tabs| && (k < |tabs| ==> tabs[k].regionID == id)
    ensures forall i :: 0 <= i < k ==> tabs[i].regionID != id
  {
    IndexFrom(tabs, id, 0)
  }

  predicate Has(tabs: seq<Tab>, id: string) { TabIndex(tabs, id) < |tabs| }

  function Renamed(t: Tab, names: map<string, string>): Tab {
    if t.regionID in names then t.(name := names[t.regionID]) else t
  }

  /** The tabs whose regions are still listed, in the same order and with the same terminals. */
  function Kept(tabs: seq<Tab>, ids: seq<string>, names: map<string, string>): seq<Tab> {
    if tabs == [] then []
    else
      var last := tabs[|tabs| - 1];
      Kept(tabs[..|tabs| - 1], ids, names) + (if last.regionID in ids then [Renamed(last, names)] else [])
  }

  function NewTab(id: string, names: map<string, string>, term: nat): Tab {
    Tab(id, if id in names then names[id] else "", term)
  }

  /** One new tab, with a terminal of its own, for each listed region that has none yet. */
  function Added(tabs: seq<Tab>, ids: seq<string>, names: map<string, string>, nextTerm: nat): (r: seq<Tab>)
    ensures |r| >= |tabs|
  {
    if ids == [] then tabs
    else
      var before := Added(tabs, ids[..|ids| - 1], names, nextTerm);
      if Has(before, ids[|ids| - 1]) then before
      else before + [NewTab(ids[|ids| - 1], names, nextTerm + (|before| - |tabs|))]
  }

  function Reconciled(tabs: seq<Tab>, ids: seq<string>, names: map<string, string>, nextTerm: nat): seq<Tab> {
    Added(Kept(tabs, ids, names), ids, names, nextTerm)
  }

  lemma HasIff(tabs: seq<Tab>, id: string)
    ensures Has(tabs, id) <==> exists i :: 0 <= i < |tabs| && tabs[i].regionID == id
  {
  }

  lemma HasOne(tabs: seq<Tab>, t: Tab, id: string)
    ensures Has(tabs + [t], id) <==> Has(tabs, id) || t.regionID == id
  {
    HasIff(tabs, id);
    HasIff(tabs + [t], id);
    if Has(tabs, id) {
      var i :| 0 <= i < |tabs| && tabs[i].regionID == id;
      assert (tabs + [t])[i].regionID == id;
    }
    assert (tabs + [t])[|tabs|] == t;
  }

  lemma {:induction false} KeptHas(tabs: seq<Tab>, ids: seq<string>, names: map<string, string>, id: string)
    ensures Has(Kept(tabs, ids, names), id) <==> Has(tabs, id) && id in ids
  {
    if tabs != [] {
      var init, last := tabs[..|tabs| - 1], tabs[|tabs| - 1];
      KeptHas(init, ids, names, id);
      assert tabs == init + [last];
      HasOne(init, last, id);
      HasOne(Kept(init, ids, names), Renamed(last, names), id);
      assert Kept(init, ids, names) + [] == Kept(init, ids, names);
    }
  }

  lemma {:induction false} KeptDistinct(tabs: seq<Tab>, ids: seq<string>, names: map<string, string>)
    requires Unique(tabs)
    ensures Unique(Kept(tabs, ids, names))
  {
    if tabs != [] {
      var init, last := tabs[..|tabs| - 1], tabs[|tabs| - 1];
      KeptDistinct(init, ids, names);
      KeptHas(init, ids, names, last.regionID);
      HasIff(init, last.regionID);
      DistinctOne(Kept(init, ids, names), Renamed(last, names));
    }
  }

  lemma DistinctOne(tabs: seq<Tab>, t: Tab)
    requires Unique(tabs) && !Has(tabs, t.regionID)
    ensures Unique(tabs + [t])
  {
    HasIff(tabs, t.regionID);
  }

  lemma {:induction false} AddedHas(tabs: seq<Tab>, ids: seq<string>, names: map<string, string>, nextTerm: nat,
    id: string)
    requires Unique(tabs)
    ensures var r := Added(tabs, ids, names, nextTerm);
            && tabs <= r && Unique(r)
            && (Has(r, id) <==> Has(tabs, id) || id in ids)
            && forall i :: |tabs| <= i < |r| ==> r[i].term == nextTerm + (i - |tabs|)
  {
    if ids != [] {
      var init, last := ids[..|ids| - 1], ids[|ids| - 1];
      AddedHas(tabs, init, names, nextTerm, id);
      AddedHas(tabs, init, names, nextTerm, last);
      var before := Added(tabs, init, names, nextTerm);
      var t := NewTab(last, names, nextTerm + (|before| - |tabs|));
      assert ids == init + [last];
      if !Has(before, last) {
        HasOne(before, t, id);
        DistinctOne(before, t);
      }
    }
  }

  lemma ReconciledHas(tabs: seq<Tab>, ids: seq<string>, names: map<string, string>, nextTerm: nat)
    requires Unique(tabs)
    ensures var r := Reconciled(tabs, ids, names, nextTerm);
            && Unique(r)
            && (forall id :: Has(r, id) <==> id in ids)
            && Kept(tabs, ids, names) <= r
            && forall i :: |Kept(tabs, ids, names)| <= i < |r| ==>
              r[i].term == nextTerm + (i - |Kept(tabs, ids, names)|)
  {
    var kept := Kept(tabs, ids, names);
    KeptDistinct(tabs, ids, names);
    AddedHas(kept, ids, names, nextTerm, "");
    forall id ensures Has(Reconciled(tabs, ids, names, nextTerm), id) <==> id in ids {
      KeptHas(tabs, ids, names, id);
      AddedHas(kept, ids, names, nextTerm, id);
    }
  }

  /** A tab that survives keeps its region and its terminal, and takes the tree's name for the region if it has one. */
  predicate SameTab(t: Tab, was: Tab, names: map<string, string>) {
    && t.regionID == was.regionID && t.term == was.term
    && t.name == if was.regionID in names then names[was.regionID] else was.name
  }

  ghost predicate Picks(at: seq<nat>, i: nat) { exists j :: 0 <= j < |at| && at[j] == i }

  /** The survivors are the tabs of listed regions, each once and in their old order: was[at[j]] became kept[j]. */
  ghost predicate Survivors(kept: seq<Tab>, was: seq<Tab>, at: seq<nat>, ids: seq<string>, names: map<string, string>) {
    && |at| == |kept|
    && (forall j :: 0 <= j < |at| ==> at[j] < |was| && SameTab(kept[j], was[at[j]], names))
    && (forall j, k :: 0 <= j < k < |at| ==> at[j] < at[k])
    && (forall i :: 0 <= i < |was| ==> (was[i].regionID in ids <==> Picks(at, i)))
  }

  lemma {:induction false} KeptSurvive(tabs: seq<Tab>, ids: seq<string>, names: map<string, string>)
    returns (at: seq<nat>)
    ensures Survivors(Kept(tabs, ids, names), tabs, at, ids, names)
  {
    if tabs == [] {
      return [];
    }
    var init, last := tabs[..|tabs| - 1], tabs[|tabs| - 1];
    assert tabs == init + [last];
    var before := KeptSurvive(init, ids, names);
    at := if last.regionID in ids then before + [|tabs| - 1] else before;
    SurvivorsOne(Kept(init, ids, names), init, before, ids, names, last, Kept(tabs, ids, names), tabs, at);
  }

  lemma SurvivorsOne(before: seq<Tab>, init: seq<Tab>, from: seq<nat>, ids: seq<string>, names: map<string, string>,
                     last: Tab, kept: seq<Tab>, was: seq<Tab>, at: seq<nat>)
    requires Survivors(before, init, from, ids, names) && was == init + [last]
    requires if last.regionID in ids then kept == before + [Renamed(last, names)] && at == from + [|init|]
             else kept == before && at == from
    ensures Survivors(kept, was, at, ids, names)
  {
    forall i | 0 <= i < |was| ensures was[i].regionID in ids <==> Picks(at, i) {
      if i < |init| {
        assert was[i] == init[i];
        if Picks(from, i) {
          var j :| 0 <= j < |from| && from[j] == i;
          assert at[j] == i;
        }
      } else if last.regionID in ids {
        assert at[|from|] == i;
      }
    }
  }

  /** A new tab belongs to a listed region and is named after it in the tree. */
  ghost predicate IsNew(t: Tab, ids: seq<string>, names: map<string, string>) {
    t.regionID in ids && t.name == if t.regionID in names then names[t.regionID] else ""
  }

  /** a is listed before b is listed for the first time. */
  ghost predicate ListedBefore(ids: seq<string>, a: string, b: string) {
    exists k :: 0 <= k < |ids| && ids[k] == b && a in ids[..k] && b !in ids[..k]
  }

  lemma ListedBeforeMore(ids: seq<string>, a: string, b: string, c: string)
    requires ListedBefore(ids, a, b)
    ensures ListedBefore(ids + [c], a, b)
  {
    var k :| 0 <= k < |ids| && ids[k] == b && a in ids[..k] && b !in ids[..k];
    assert (ids + [c])[..k] == ids[..k] && (ids + [c])[k] == b;
  }

  /** New tabs come after the old ones, in the order the session lists their regions. */
  lemma {:induction false} AddedInOrder(tabs: seq<Tab>, ids: seq<string>, names: map<string, string>, nextTerm: nat)
    requires Unique(tabs)
    ensures var r := Added(tabs, ids, names, nextTerm);
            && tabs <= r
            && (forall i :: |tabs| <= i < |r| ==> IsNew(r[i], ids, names))
            && (forall i, j :: |tabs| <= i < j < |r| ==> ListedBefore(ids, r[i].regionID, r[j].regionID))
  {
    if ids != [] {
      var init, last := ids[..|ids| - 1], ids[|ids| - 1];
      AddedInOrder(tabs, init, names, nextTerm);
      AddedHas(tabs, init, names, nextTerm, last);
      assert ids == init + [last];
      var before, r := Added(tabs, init, names, nextTerm), Added(tabs, ids, names, nextTerm);
      forall i, j | |tabs| <= i < j < |r| ensures ListedBefore(ids, r[i].regionID, r[j].regionID) {
        if j < |before| {
          ListedBeforeMore(init, r[i].regionID, r[j].regionID, last);
        } else {
          assert ids[..|init|] == init && r[j].regionID == last && r[i] == before[i];
        }
      }
    }
  }

  // ── The whole session ──────────────────────────────────────────────────────

  function ActiveRegion(s: Session): string {
    if s.active < |s.tabs| then s.tabs[s.active].regionID else ""
  }

  /** Where the active index lands: on an awaited region if it is there, else back on the region that was active. */
  function ActiveAfter(s: Session, tabs: seq<Tab>): nat {
    var prev := ActiveRegion(s);
    var wanted := if s.pending != "" then s.pending else prev;
    Clamped(if wanted != "" && Has(tabs, wanted) then TabIndex(tabs, wanted) else s.active, |tabs|)
  }

  /** The session after the tree changed: ids lists its regions, or the tree does not have it any more. */
  function Synced(s: Session, ids: Option<seq<string>>, names: map<string, string>): Session {
    match ids
    case None => s.(tabs := [])
    case Some(list) =>
      var kept := Kept(s.tabs, list, names);
      var tabs := Added(kept, list, names, s.nextTerm);
      var active := ActiveAfter(s, tabs);
      var pending := if s.pending != "" && Has(tabs, s.pending) then "" else s.pending;
      var resubscribe := |tabs| > 0 && (s.tabs == [] || tabs[active].regionID != ActiveRegion(s));
      Session(tabs, active, pending, if resubscribe then tabs[active].regionID else s.subscribed,
              s.nextTerm + (|tabs| - |kept|))
  }

  lemma SyncedIs(s: Session, list: seq<string>, names: map<string, string>, kept: seq<Tab>, tabs: seq<Tab>)
    requires kept == Kept(s.tabs, list, names) && tabs == Added(kept, list, names, s.nextTerm)
    ensures var active := ActiveAfter(s, tabs);
            Synced(s, Some(list), names) ==
              Session(tabs, active, if s.pending != "" && Has(tabs, s.pending) then "" else s.pending,
                      if |tabs| > 0 && (s.tabs == [] || tabs[active].regionID != ActiveRegion(s))
                        then tabs[active].regionID
                      else s.subscribed,
                      s.nextTerm + (|tabs| - |kept|))
  {
  }

  function SwitchedTo(s: Session, k: nat): Session {
    if k >= |s.tabs| || k == s.active then s else s.(active := k, subscribed := s.tabs[k].regionID)
  }

  function Spawned(s: Session, id: string): Session {
    if Has(s.tabs, id) then SwitchedTo(s, TabIndex(s.tabs, id)) else s.(pending := id)
  }

  /** The active index is in range, region ids are not empty, and the active tab's region is the one subscribed. */
  ghost predicate Inv(s: Session) {
    && Unique(s.tabs) && !Has(s.tabs, "")
    && (s.tabs != [] ==> s.active < |s.tabs| && s.subscribed == s.tabs[s.active].regionID)
  }

  lemma SyncedKeeps(s: Session, ids: Option<seq<string>>, names: map<string, string>)
    requires Inv(s) && (ids.Some? ==> "" !in ids.value)
    ensures Inv(Synced(s, ids, names))
  {
    if ids.Some? {
      ReconciledHas(s.tabs, ids.value, names, s.nextTerm);
    } else {
      HasIff([], "");
    }
  }

  /**
   Main result: a tree update leaves one tab for each listed region and no
   other, without duplicates; the tabs that stay come first, in their old order
   with their own terminals and the tree's names, and then the new ones in the
   order the session lists them, each with a new terminal.
   */
  lemma TabsFollowTheTree(s: Session, ids: seq<string>, names: map<string, string>)
    returns (kept: seq<Tab>, at: seq<nat>)
    requires Unique(s.tabs)
    ensures var r := Synced(s, Some(ids), names).tabs;
            && Unique(r) && kept <= r
            && (forall id :: Has(r, id) <==> id in ids)
            && Survivors(kept, s.tabs, at, ids, names)
            && (forall i :: |kept| <= i < |r| ==> IsNew(r[i], ids, names) && r[i].term == s.nextTerm + (i - |kept|))
            && (forall i, j :: |kept| <= i < j < |r| ==> ListedBefore(ids, r[i].regionID, r[j].regionID))
  {
    kept := Kept(s.tabs, ids, names);
    at := KeptSurvive(s.tabs, ids, names);
    ReconciledHas(s.tabs, ids, names, s.nextTerm);
    AddedInOrder(kept, ids, names, s.nextTerm);
  }

  /** When the awaited region is listed the user is on it, subscribed to it, and nothing is awaited any more. */
  lemma AwaitedArrives(s: Session, ids: seq<string>, names: map<string, string>)
    requires Inv(s) && "" !in ids && s.pending in ids
    ensures var t := Synced(s, Some(ids), names);
            t.pending == "" && ActiveRegion(t) == s.pending == t.subscribed
  {
    ReconciledHas(s.tabs, ids, names, s.nextTerm);
    SyncedKeeps(s, Some(ids), names);
  }

  lemma SwitchedKeeps(s: Session, k: nat)
    requires Inv(s)
    ensures Inv(SwitchedTo(s, k))
  {
  }

  lemma SpawnedKeeps(s: Session, id: string)
    requires Inv(s)
    ensures Inv(Spawned(s, id))
  {
    if Has(s.tabs, id) {
      SwitchedKeeps(s, TabIndex(s.tabs, id));
    }
  }

  // ── Whole runs ─────────────────────────────────────────────────────────────

  datatype Happening =
    | TreeChanged(listed: Option<seq<string>>, names: map<string, string>)
    | SpawnAnswered(id: string)
    | Switched(k: nat)

  function Step(s: Session, h: Happening): Session {
    match h
    case TreeChanged(listed, names) => Synced(s, listed, names)
    case SpawnAnswered(id) => Spawned(s, id)
    case Switched(k) => SwitchedTo(s, k)
  }

  function Run(s: Session, hs: seq<Happening>): Session
    decreases |hs|
  {
    if hs == [] then s else Run(Step(s, hs[0]), hs[1..])
  }

  /** Region ids are never empty. */
  predicate Named(h: Happening) { h.TreeChanged? && h.listed.Some? ==> "" !in h.listed.value }

  /** Every tab has a terminal of its own, older than any still to be made. */
  ghost predicate OwnTerminals(tabs: seq<Tab>, nextTerm: nat) {
    && (forall i :: 0 <= i < |tabs| ==> tabs[i].term < nextTerm)
    && (forall i, j :: 0 <= i < j < |tabs| ==> tabs[i].term < tabs[j].term)
  }

  lemma {:induction false} KeptOwnTerminals(tabs: seq<Tab>, ids: seq<string>, names: map<string, string>, nextTerm: nat)
    requires OwnTerminals(tabs, nextTerm)
    ensures OwnTerminals(Kept(tabs, ids, names), nextTerm)
  {
    if tabs != [] {
      var init, last := tabs[..|tabs| - 1], tabs[|tabs| - 1];
      assert OwnTerminals(init, last.term);
      KeptOwnTerminals(init, ids, names, last.term);
    }
  }

  lemma SyncedOwnTerminals(s: Session, listed: Option<seq<string>>, names: map<string, string>)
    requires Inv(s) && OwnTerminals(s.tabs, s.nextTerm)
    ensures var t := Synced(s, listed, names); OwnTerminals(t.tabs, t.nextTerm) && s.nextTerm <= t.nextTerm
  {
    if listed.Some? {
      KeptOwnTerminals(s.tabs, listed.value, names, s.nextTerm);
      ReconciledHas(s.tabs, listed.value, names, s.nextTerm);
    }
  }

  lemma StepKeeps(s: Session, h: Happening)
    requires Inv(s) && OwnTerminals(s.tabs, s.nextTerm) && Named(h)
    ensures var t := Step(s, h); Inv(t) && OwnTerminals(t.tabs, t.nextTerm) && s.nextTerm <= t.nextTerm
  {
    match h
    case TreeChanged(listed, names) =>
      SyncedKeeps(s, listed, names);
      SyncedOwnTerminals(s, listed, names);
    case SpawnAnswered(id) => SpawnedKeeps(s, id);
    case Switched(k) => SwitchedKeeps(s, k);
  }

  /**
   Over any run of tree updates, spawn answers and switches the tabs stay
   unique, the active one in range and subscribed, and no two tabs ever share a
   terminal.
   */
  lemma {:induction false} RunKeeps(s: Session, hs: seq<Happening>)
    requires Inv(s) && OwnTerminals(s.tabs, s.nextTerm) && forall i :: 0 <= i < |hs| ==> Named(hs[i])
    ensures var t := Run(s, hs); Inv(t) && OwnTerminals(t.tabs, t.nextTerm) && s.nextTerm <= t.nextTerm
    decreases |hs|
  {
    if hs != [] {
      StepKeeps(s, hs[0]);
      RunKeeps(Step(s, hs[0]), hs[1..]);
    }
  }

  /**
   Main result: whether a spawn's response comes before or after the tree event
   that lists its region, the session ends with the same tabs and on the new
   region's tab, subscribed to it.
   */
  lemma SpawnRaceEndsAlike(s: Session, ids: seq<string>, names: map<string, string>, id: string)
    requires Inv(s) && "" !in ids && id in ids && !Has(s.tabs, id)
    ensures var late := Spawned(Synced(s, Some(ids), names), id);
            var early := Synced(Spawned(s, id), Some(ids), names);
            && late.tabs == early.tabs && late.active == early.active && late.subscribed == early.subscribed == id
            && ActiveRegion(late) == id && early.pending == "" && late.pending == Synced(s, Some(ids), names).pending
  {
    ReconciledHas(s.tabs, ids, names, s.nextTerm);
    SyncedKeeps(s, Some(ids), names);
    SyncedKeeps(Spawned(s, id), Some(ids), names);
    var tabs := Reconciled(s.tabs, ids, names, s.nextTerm);
    assert Has(tabs, id);
  }

  /** An awaited region stays awaited while the tree does not list it. */
  lemma PendingSurvives(s: Session, ids: Option<seq<string>>, names: map<string, string>)
    requires Inv(s) && s.pending != "" && (ids.Some? ==> s.pending !in ids.value)
    ensures Synced(s, ids, names).pending == s.pending && !Has(Synced(s, ids, names).tabs, s.pending)
  {
    if ids.Some? {
      ReconciledHas(s.tabs, ids.value, names, s.nextTerm);
    } else {
      HasIff([], s.pending);
    }
  }

  /**
   When the active region survives and no awaited region arrives, it stays
   active exactly when none is awaited, or no tab in front of it went away, or
   it is the last one left: while a spawn is awaited the code keeps the index
   instead of the region.
   */
  lemma ActiveStaysIff(s: Session, ids: seq<string>, names: map<string, string>)
    requires Inv(s) && s.tabs != [] && "" !in ids && ActiveRegion(s) in ids && s.pending !in ids
    ensures ActiveRegion(Synced(s, Some(ids), names)) == ActiveRegion(s) <==>
            || s.pending == ""
            || (forall i :: 0 <= i < s.active ==> s.tabs[i].regionID in ids)
            || (forall id :: id in ids ==> TabIndex(s.tabs, id) <= s.active)
  {
    ReconciledHas(s.tabs, ids, names, s.nextTerm);
    var tabs := Reconciled(s.tabs, ids, names, s.nextTerm);
    var k := |Kept(s.tabs[..s.active], ids, names)|;
    KeptPosition(s.tabs, ids, names, s.active);
    LastLeftIff(s.tabs, ids, names, s.nextTerm, s.active);
    ClampedStays(tabs, k, s.active);
    if s.pending == "" {
      HasIff(tabs, ActiveRegion(s));
    } else {
      assert !Has(tabs, s.pending);
    }
  }

  lemma {:induction false} KeptPrefix(tabs: seq<Tab>, ids: seq<string>, names: map<string, string>, k: nat)
    requires k <= |tabs|
    ensures Kept(tabs[..k], ids, names) <= Kept(tabs, ids, names)
  {
    if k == |tabs| {
      assert tabs[..k] == tabs;
    } else {
      KeptPrefix(tabs[..|tabs| - 1], ids, names, k);
      assert tabs[..|tabs| - 1][..k] == tabs[..k];
    }
  }

  /** The tab at index k ends up last exactly when every listed region has a tab at or before it. */
  lemma LastLeftIff(tabs: seq<Tab>, ids: seq<string>, names: map<string, string>, nextTerm: nat, k: nat)
    requires Unique(tabs) && k < |tabs| && tabs[k].regionID in ids
    ensures |Reconciled(tabs, ids, names, nextTerm)| == |Kept(tabs[..k], ids, names)| + 1 <==>
            forall id :: id in ids ==> TabIndex(tabs, id) <= k
  {
    var r, upTo := Reconciled(tabs, ids, names, nextTerm), Kept(tabs[..k + 1], ids, names);
    ReconciledHas(tabs, ids, names, nextTerm);
    KeptPrefix(tabs, ids, names, k + 1);
    assert tabs[..k + 1][..k] == tabs[..k];
    assert |upTo| == |Kept(tabs[..k], ids, names)| + 1;
    if |r| == |upTo| {
      assert r == upTo;
      forall id | id in ids ensures TabIndex(tabs, id) <= k {
        KeptHas(tabs[..k + 1], ids, names, id);
        FoundWithin(tabs, id, k);
      }
    }
    if |r| > |upTo| {
      var id := r[|upTo|].regionID;
      HasIff(r, id);
      FoundWithin(tabs, id, k);
      KeptHas(tabs[..k + 1], ids, names, id);
      NotBefore(r, upTo, id);
    }
  }

  lemma NotBefore(r: seq<Tab>, a: seq<Tab>, id: string)
    requires Unique(r) && a <= r && |a| < |r| && r[|a|].regionID == id
    ensures !Has(a, id)
  {
    HasIff(a, id);
    assert forall i :: 0 <= i < |a| ==> a[i] == r[i];
  }

  function Clamped(active: nat, n: nat): (k: nat)
    ensures n > 0 ==> k < n && (k != active ==> n <= active && k == n - 1)
    ensures n == 0 ==> k == 0
  {
    if active < n then active else if n > 0 then n - 1 else 0
  }

  lemma ClampedStays(tabs: seq<Tab>, k: nat, active: nat)
    requires Unique(tabs) && k < |tabs| && k <= active
    ensures tabs[Clamped(active, |tabs|)].regionID == tabs[k].regionID <==> k == active || |tabs| == k + 1
  {
  }

  lemma FoundWithin(tabs: seq<Tab>, id: string, k: nat)
    requires k < |tabs|
    ensures Has(tabs[..k + 1], id) <==> TabIndex(tabs, id) <= k
  {
    HasIff(tabs[..k + 1], id);
    if Has(tabs[..k + 1], id) {
      assert tabs[TabIndex(tabs[..k + 1], id)].regionID == id;
    }
    if TabIndex(tabs, id) <= k {
      assert tabs[..k + 1][TabIndex(tabs, id)].regionID == id;
    }
  }

  /** A kept tab sits after exactly the kept tabs that were in front of it. */
  lemma {:induction false} KeptPosition(tabs: seq<Tab>, ids: seq<string>, names: map<string, string>, k: nat)
    requires k < |tabs| && tabs[k].regionID in ids
    ensures var before, kept := |Kept(tabs[..k], ids, names)|, Kept(tabs, ids, names);
            && before < |kept| && kept[before].regionID == tabs[k].regionID && before <= k
            && (before == k <==> forall i :: 0 <= i < k ==> tabs[i].regionID in ids)
  {
    KeptSize(tabs[..k], ids, names);
    var init, last := tabs[..|tabs| - 1], tabs[|tabs| - 1];
    if k < |tabs| - 1 {
      KeptPosition(init, ids, names, k);
      assert init[..k] == tabs[..k];
    } else {
      assert init == tabs[..k];
    }
  }

  lemma {:induction false} KeptSize(tabs: seq<Tab>, ids: seq<string>, names: map<string, string>)
    ensures |Kept(tabs, ids, names)| <= |tabs|
    ensures |Kept(tabs, ids, names)| == |tabs| <==> forall i :: 0 <= i < |tabs| ==> tabs[i].regionID in ids
  {
    if tabs != [] {
      KeptSize(tabs[..|tabs| - 1], ids, names);
    }
  }

  /** The failing inputs: the tab in front of the active one closes while a spawn is awaited. */
  lemma AwaitedSpawnMovesTheActiveTab(a: Tab, b: Tab, c: Tab, awaited: string)
    requires Unique([a, b, c]) && awaited != "" && !Has([a, b, c], awaited) && !Has([a, b, c], "")
    ensures var s := Session([a, b, c], 1, awaited, b.regionID, 3);
            Inv(s) && ActiveRegion(s) == b.regionID
            && ActiveRegion(Synced(s, Some([b.regionID, c.regionID]), map[])) == c.regionID
  {
    var tabs, ids := [a, b, c], [b.regionID, c.regionID];
    assert tabs[0] == a && tabs[1] == b && tabs[2] == c;
    HasIff(tabs, awaited);
    HasIff(tabs, "");
    assert tabs[..1] == [a] && tabs[..2] == [a, b] && [a][..0] == [] && [a, b][..1] == [a];
    assert Kept([a], ids, map[]) == [];
    assert Kept([a, b], ids, map[]) == [b];
    var kept := [b, c];
    assert Kept(tabs, ids, map[]) == kept;
    assert ids[..1] == [b.regionID] && [b.regionID][..0] == [];
    assert kept[0] == b && kept[1] == c;
    HasIff(kept, b.regionID);
    HasIff(kept, c.regionID);
    HasIff(kept, awaited);
    assert Added(kept, [b.regionID], map[], 3) == kept;
    assert Added(kept, ids, map[], 3) == kept;
  }

  /** Moving the i-th tab down to the n-th place touches nothing before n and nothing after i. */
  lemma Moved(tabs: seq<Tab>, n: nat, i: nat, t: Tab)
    requires n <= i < |tabs|
    ensures tabs[n := t][..n + 1] == tabs[..n] + [t] && tabs[n := t][i + 1..] == tabs[i + 1..]
  {
  }

  // ── The session layer itself ───────────────────────────────────────────────

  class SessionLayer {
    var tabs: seq<Tab>
    var activeTab: nat
    var pendingActiveRegionID: string
    // The region the server was last asked to send.
    var subscribed: string
    var nextTerm: nat

    function State(): Session
      reads this
    {
      Session(tabs, activeTab, pendingActiveRegionID, subscribed, nextTerm)
    }

    constructor ()
      ensures Inv(State()) && OwnTerminals(tabs, nextTerm) && tabs == [] && pendingActiveRegionID == ""
    {
      tabs, activeTab, pendingActiveRegionID, subscribed, nextTerm := [], 0, "", "", 0;
      new;
      HasIff([], "");
    }

    method ActiveRegionID() returns (id: string)
      requires tabs != [] ==> activeTab < |tabs|
      ensures id == ActiveRegion(State())
    {
      if |tabs| == 0 {
        return "";
      }
      return tabs[activeTab].regionID;
    }

    method FindTabIndex(regionID: string) returns (k: int)
      ensures k == if Has(tabs, regionID) then TabIndex(tabs, regionID) else -1
    {
      for i := 0 to |tabs|
        invariant IndexFrom(tabs, regionID, 0) == IndexFrom(tabs, regionID, i)
      {
        if tabs[i].regionID == regionID {
          return i;
        }
      }
      return -1;
    }

    /** Drops the tabs of regions that are gone, moving the others down in place. */
    method Compact(ids: seq<string>, names: map<string, string>)
      modifies this`tabs
      ensures tabs == Kept(old(tabs), ids, names)
    {
      var n := 0;
      for i := 0 to |tabs|
        invariant n <= i <= |tabs| == |old(tabs)|
        invariant tabs[..n] == Kept(old(tabs)[..i], ids, names) && tabs[i..] == old(tabs)[i..]
      {
        var t := tabs[i];
        assert t == old(tabs)[i] && old(tabs)[..i + 1][..i] == old(tabs)[..i];
        if t.regionID in ids {
          if t.regionID in names {
            t := t.(name := names[t.regionID]);
          }
          Moved(tabs, n, i, t);
          tabs := tabs[n := t];
          n := n + 1;
        }
      }
      assert old(tabs)[..|old(tabs)|] == old(tabs);
      tabs := tabs[..n];
    }

    /** Makes a tab for every listed region that has none. */
    method AddMissing(ids: seq<string>, names: map<string, string>)
      modifies this`tabs, this`nextTerm
      ensures tabs == Added(old(tabs), ids, names, old(nextTerm))
      ensures nextTerm == old(nextTerm) + (|tabs| - |old(tabs)|)
    {
      for i := 0 to |ids|
        invariant tabs == Added(old(tabs), ids[..i], names, old(nextTerm))
        invariant nextTerm == old(nextTerm) + (|tabs| - |old(tabs)|)
      {
        assert ids[..i + 1][..i] == ids[..i];
        var k := FindTabIndex(ids[i]);
        if k < 0 {
          tabs := tabs + [Tab(ids[i], if ids[i] in names then names[ids[i]] else "", nextTerm)];
          nextTerm := nextTerm + 1;
        }
      }
      assert ids[..|ids|] == ids;
    }

    /** Puts the active index back: on the awaited region, or on the one that was active. */
    method RestoreActive(prevActiveID: string)
      modifies this`activeTab, this`pendingActiveRegionID
      ensures var wanted := if old(pendingActiveRegionID) != "" then old(pendingActiveRegionID) else prevActiveID;
              var k := if wanted != "" && Has(tabs, wanted) then TabIndex(tabs, wanted) else old(activeTab);
              activeTab == Clamped(k, |tabs|)
      ensures pendingActiveRegionID ==
                if old(pendingActiveRegionID) != "" && Has(tabs, old(pendingActiveRegionID)) then ""
                  else old(pendingActiveRegionID)
    {
      if pendingActiveRegionID != "" {
        var idx := FindTabIndex(pendingActiveRegionID);
        if idx >= 0 {
          activeTab := idx;
          pendingActiveRegionID := "";
        }
      } else if prevActiveID != "" {
        var idx := FindTabIndex(prevActiveID);
        if idx >= 0 {
          activeTab := idx;
        }
      }
      if activeTab >= |tabs| {
        activeTab := if |tabs| > 0 then |tabs| - 1 else 0;
      }
    }

    /** The session's regions as the tree lists them. */
    method Reconcile(listed: seq<string>, names: map<string, string>)
      requires tabs != [] ==> activeTab < |tabs|
      modifies this
      ensures State() == Synced(old(State()), Some(listed), names)
    {
      ghost var s := State();
      var prevActiveID := ActiveRegionID();
      var hadTabs := |tabs| > 0;
      Compact(listed, names);
      ghost var kept := tabs;
      AddMissing(listed, names);
      RestoreActive(prevActiveID);
      SyncedIs(s, listed, names, kept, tabs);
      Resubscribe(prevActiveID, hadTabs);
    }

    /** Asks for the active tab's region when it has changed, or when there were no tabs before. */
    method Resubscribe(prevActiveID: string, hadTabs: bool)
      requires tabs != [] ==> activeTab < |tabs|
      modifies this`subscribed
      ensures subscribed ==
                if |tabs| > 0 && (!hadTabs || tabs[activeTab].regionID != prevActiveID) then tabs[activeTab].regionID
                else old(subscribed)
    {
      if |tabs| > 0 && (tabs[activeTab].regionID != prevActiveID || !hadTabs) {
        subscribed := tabs[activeTab].regionID;
      }
    }

    /** named: the session's name is known; listed: its regions in the tree, if the tree has the session. */
    method SyncFromTree(named: bool, listed: Option<seq<string>>, names: map<string, string>)
      requires tabs != [] ==> activeTab < |tabs|
      modifies this
      ensures State() == if !named && listed.None? then old(State()) else Synced(old(State()), listed, names)
      ensures listed.None? ==> tabs == (if named then [] else old(tabs)) && activeTab == old(activeTab)
                               && pendingActiveRegionID == old(pendingActiveRegionID) && subscribed == old(subscribed)
    {
      if listed.None? {
        if !named {
          return;
        }
        if |tabs| > 0 {
          tabs := [];
        }
        return;
      }
      Reconcile(listed.value, names);
    }

    method SwitchToTab(idx: int)
      requires Inv(State())
      modifies this`activeTab, this`subscribed
      ensures State() == if idx < 0 then old(State()) else SwitchedTo(old(State()), idx)
      ensures tabs == old(tabs) && pendingActiveRegionID == old(pendingActiveRegionID) && nextTerm == old(nextTerm)
      ensures 0 <= idx < |tabs| ==> activeTab == idx && subscribed == tabs[idx].regionID
      ensures !(0 <= idx < |tabs|) ==> activeTab == old(activeTab) && subscribed == old(subscribed)
    {
      if idx < 0 || idx >= |tabs| || idx == activeTab {
        return;
      }
      subscribed := "";
      activeTab := idx;
      subscribed := tabs[activeTab].regionID;
    }

    /** A failed spawn changes no tab. */
    method HandleSpawnResponse(error: bool, regionID: string)
      requires Inv(State())
      modifies this
      ensures State() == if error then old(State()) else Spawned(old(State()), regionID)
      ensures tabs == old(tabs) && nextTerm == old(nextTerm)
      ensures !error && Has(tabs, regionID) ==> ActiveRegion(State()) == subscribed == regionID
      ensures pendingActiveRegionID == if error || Has(tabs, regionID) then old(pendingActiveRegionID) else regionID
      ensures error || !Has(tabs, regionID) ==> activeTab == old(activeTab) && subscribed == old(subscribed)
    {
      if error {
        return;
      }
      var idx := FindTabIndex(regionID);
      if idx >= 0 {
        SwitchToTab(idx);
      } else {
        pendingActiveRegionID := regionID;
      }
    }
  }
}
