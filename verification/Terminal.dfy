/**
 A terminal tab on the client (internal/tui/terminal.go): a snapshot replaces
 the screen and rebuilds the local history around it, terminal events are
 replayed on top, and sync markers are set aside.
 */
module Terminal {
  import opened Capture
  import opened ClientHistory
  import opened Delivery
  import opened Options
  import opened Scrollback

  function SyncIds(es: seq<Event>): seq<string> {
    if es == [] then []
    else SyncIds(es[..|es| - 1]) + (if es[|es| - 1].Sync? then [es[|es| - 1].id] else [])
  }

  function WithoutSyncs(es: seq<Event>): seq<Event> {
    if es == [] then []
    else WithoutSyncs(es[..|es| - 1]) + (if es[|es| - 1].Sync? then [] else [es[|es| - 1]])
  }

  lemma AppendOne(h: Hist, es: seq<Event>, e: Event)
    ensures ApplyEvents(h, es + [e]) == ApplyEvent(ApplyEvents(h, es), e)
    ensures ScreenOps(es + [e]) == ScreenOps(es) + if e.Bell? || e.Sync? then [] else [e]
  {
    assert (es + [e])[..|es|] == es;
    ApplyEventsAppend(h, es, [e]);
    assert [e][1..] == [];
  }

  /** Sync markers are not screen operations: setting them aside changes neither the screen nor the history. */
  lemma {:induction false} SyncsAreTransparent(h: Hist, es: seq<Event>)
    ensures ScreenOps(WithoutSyncs(es)) == ScreenOps(es)
    ensures ApplyEvents(h, WithoutSyncs(es)) == ApplyEvents(h, es)
  {
    if es != [] {
      var init, last := es[..|es| - 1], es[|es| - 1];
      SyncsAreTransparent(h, init);
      assert es == init + [last];
      AppendOne(h, init, last);
      if last.Sync? {
        assert WithoutSyncs(es) == WithoutSyncs(init);
      } else {
        AppendOne(h, WithoutSyncs(init), last);
      }
    }
  }

  method ExtractSyncs(events: seq<Event>) returns (filtered: seq<Event>, ids: seq<string>)
    ensures filtered == WithoutSyncs(events) && ids == SyncIds(events)
  {
    filtered, ids := [], [];
    for i := 0 to |events|
      invariant filtered == WithoutSyncs(events[..i]) && ids == SyncIds(events[..i])
    {
      assert events[..i + 1][..i] == events[..i];
      match events[i]
      case Sync(id) => ids := ids + [id];
      case e => filtered := filtered + [e];
    }
    assert events[..|events|] == events;
  }

  lemma OneMore(fs: seq<Frame>, f: Frame, k: nat)
    requires k <= |fs|
    ensures (forall i :: k <= i < |fs + [f]| ==> !TellsLoss((fs + [f])[i]))
            <==> (forall i :: k <= i < |fs| ==> !TellsLoss(fs[i])) && !TellsLoss(f)
  {
    var gs := fs + [f];
    assert gs[|fs|] == f;
    if forall i :: k <= i < |gs| ==> !TellsLoss(gs[i]) {
      forall i | k <= i < |fs| ensures !TellsLoss(fs[i]) {
        assert gs[i] == fs[i];
      }
    }
  }

  class TerminalLayer {
    var hscreen: HistoryScreen?
    // What the screen shows, as the log of operations applied to it.
    var screen: seq<Event>
    var scrollbackRequested: bool
    ghost var handled: seq<Frame>
    // How many frames had been handled when scrollback was last asked for.
    ghost var askedAt: Option<nat>

    /** The screen shows what the frames handled so far say. */
    ghost predicate ShowsHandled()
      reads this
    {
      match View(handled)
      case None => hscreen == null
      case Some(shown) => hscreen != null && screen == shown
    }

    /** Scrollback counts as fetched since it was last asked for, unless rows were lost after that. */
    ghost predicate AskedSinceLoss()
      reads this
    {
      scrollbackRequested == match askedAt
        case None => false
        case Some(k) => k <= |handled| && forall i :: k <= i < |handled| ==> !TellsLoss(handled[i])
    }

    ghost predicate Valid()
      reads this
    {
      ShowsHandled() && AskedSinceLoss() && (askedAt.Some? ==> askedAt.value <= |handled|)
    }

    function History(): Hist
      reads this, hscreen
    {
      if hscreen == null then EmptyHist(CLIENT_HISTORY) else hscreen.State()
    }

    constructor ()
      ensures Valid() && handled == [] && !scrollbackRequested
    {
      hscreen, screen, scrollbackRequested, handled, askedAt := null, [], false, [], None;
    }

    /** Subscribing again forgets what was fetched. */
    method Activate()
      requires Valid()
      modifies this`scrollbackRequested, this`askedAt
      ensures Valid() && !scrollbackRequested
    {
      scrollbackRequested, askedAt := false, None;
    }

    /** Opening scrollback asks for the server's rows, unless that was done and nothing was lost since. */
    method AskScrollback() returns (asked: bool)
      requires Valid()
      modifies this`scrollbackRequested, this`askedAt
      ensures Valid() && scrollbackRequested && asked == !old(scrollbackRequested)
      ensures askedAt == if asked then Some(|handled|) else old(askedAt)
    {
      if scrollbackRequested {
        return false;
      }
      scrollbackRequested, askedAt := true, Some(|handled|);
      return true;
    }

    /** What is left of the old history and then the delta go into the new one; the oldest row keeps its label. */
    static method Fill(hs: HistoryScreen, prevHistory: seq<Row>, delta: seq<Row>, firstSeq: nat)
      requires hs.firstSeq < TWO_TO_THE_64
      modifies hs
      ensures var filled := Prepend(old(hs.State()), prevHistory + delta);
              hs.State() == if prevHistory == [] then filled else filled.(first := firstSeq)
    {
      var combined := prevHistory + delta;
      if |combined| == 0 {
        PrependNothing(hs.State());
        return;
      }
      hs.PrependHistory(combined);
      if |prevHistory| > 0 {
        hs.SetFirstSeq(firstSeq);
      }
    }

    /** The rebuilt history of a snapshot, from the one it replaces. */
    method Rebuild(prev: Hist, f: Frame) returns (hs: HistoryScreen)
      requires f.ScreenUpdate? && f.total < TWO_TO_THE_64 && prev.total < TWO_TO_THE_64
      ensures fresh(hs) && hs.State() == AfterUpdate(prev, f)
    {
      var prevHistory := prev.items;
      if f.scrollback > 0 && |prevHistory| > f.scrollback {
        prevHistory := prevHistory[..f.scrollback];
      }
      hs := new HistoryScreen(CLIENT_HISTORY);
      var baseTotal := prev.total;
      if !f.desync && f.total > prev.total && |f.delta| == f.total - prev.total {
        baseTotal := f.total;
      }
      hs.SetTotalAdded(baseTotal);
      Fill(hs, prevHistory, f.delta, prev.first);
    }

    method HandleScreenUpdate(f: Frame)
      requires Valid() && f.ScreenUpdate? && f.total < TWO_TO_THE_64 && History().total < TWO_TO_THE_64
      modifies this
      ensures Valid() && handled == old(handled) + [f]
      ensures History() == AfterFrame(old(History()), f)
      ensures scrollbackRequested == (old(scrollbackRequested) && !f.desync) && askedAt == old(askedAt)
    {
      assert (handled + [f])[..|handled|] == handled;
      if askedAt.Some? {
        OneMore(handled, f, askedAt.value);
      }
      if f.desync {
        scrollbackRequested := false;
      }
      var prev := EmptyHist(CLIENT_HISTORY);
      if hscreen != null {
        prev := hscreen.State();
      }
      hscreen := Rebuild(prev, f);
      screen := f.screen;
      handled := handled + [f];
    }

    /** Replays what is left after the markers; hands the marker ids to the event loop. */
    method HandleTerminalEvents(events: seq<Event>) returns (syncs: seq<string>)
      requires Valid()
      modifies this`screen, this`handled, hscreen
      ensures Valid() && handled == old(handled) + [TerminalEvents(events)]
      ensures old(hscreen) == null ==> hscreen == null && syncs == []
      ensures old(hscreen) != null ==>
                History() == AfterFrame(old(History()), TerminalEvents(events)) && syncs == SyncIds(events)
    {
      var f := TerminalEvents(events);
      assert (handled + [f])[..|handled|] == handled;
      if askedAt.Some? {
        OneMore(handled, f, askedAt.value);
      }
      if hscreen == null {
        handled := handled + [f];
        return [];
      }
      var filtered;
      filtered, syncs := ExtractSyncs(events);
      SyncsAreTransparent(hscreen.State(), events);
      Replay(filtered);
      handled := handled + [f];
    }

    method Replay(events: seq<Event>)
      requires hscreen != null
      modifies this`screen, hscreen
      ensures screen == old(screen) + ScreenOps(events)
      ensures hscreen.State() == ApplyEvents(old(hscreen.State()), events)
    {
      ghost var h := hscreen.State();
      for i := 0 to |events|
        invariant screen == old(screen) + ScreenOps(events[..i])
        invariant hscreen.State() == ApplyEvents(h, events[..i])
      {
        AppendOne(h, events[..i], events[i]);
        assert events[..i + 1] == events[..i] + [events[i]];
        hscreen.Handle(events[i]);
        if !events[i].Bell? && !events[i].Sync? {
          screen := screen + [events[i]];
        }
      }
      assert events[..|events|] == events;
    }
  }

  /**
   End to end: a tab that has handled every frame its queue accepted, for a
   subscriber that is not behind, shows the region's operation log up to the
   operations a synchronized batch still holds, and all of it when none is open.
   */
  lemma TabShowsTheLog(states: seq<Region>, msgs: seq<Msg>, n: nat, c: nat, tab: TerminalLayer)
    requires IsRun(states, msgs) && n <= |msgs| && c in states[n].subs && !states[n].subs[c].behind
    requires tab.Valid() && tab.handled == states[n].subs[c].accepted
    ensures tab.hscreen != null && Released(states[n]) <= tab.screen <= states[n].screen
    ensures states[n].screen == Released(states[n]) + ScreenOps(states[n].proxy.batch)
    ensures states[n].proxy.batch != [] ==> SyncOpen(states[n].proxy.batch)
  {
    RunKeeps(states, msgs, n);
    assert InSync(states[n], states[n].subs[c]);
  }

  /**
   End to end: a tab that has handled the frames with which the server ended a
   spell of being behind no longer counts its scrollback as fetched, so the next
   time it is opened the lost rows are asked for.
   */
  lemma RepairedTabAsksAgain(a: Region, m: Msg, b: Region, c: nat, tab: TerminalLayer)
    requires Next(a, m, b) && c in a.subs && c in b.subs && a.subs[c].behind && !b.subs[c].behind
    requires tab.Valid() && tab.handled == b.subs[c].accepted
    requires tab.askedAt.Some? ==> tab.askedAt.value <= |a.subs[c].accepted|
    ensures !tab.scrollbackRequested
  {
    TurnTells(a, m, b, c);
    var fs := NewFrames(a.subs[c], b.subs[c]);
    var i :| 0 <= i < |fs| && TellsLoss(fs[i]);
    assert tab.handled[|a.subs[c].accepted| + i] == fs[i];
  }
}
