/**
 The client's receiving side (internal/tui/server.go): consecutive terminal
 events of one region are merged into larger messages, and binary chunks go
 straight to a running download.
 */
module Inbound {

  datatype Message =
    | Events(region: string, events: seq<string>)
    | Chunk(data: string)
    | Other(id: nat)

  const MAX_BATCH_EVENTS := 512

  /** What a receiver sees one by one: single events, and other messages. */
  datatype Item = One(region: string, event: string) | Whole(m: Message)

  function EventItems(region: string, events: seq<string>): seq<Item> {
    seq(|events|, i requires 0 <= i < |events| => One(region, events[i]))
  }

  function ItemsOf(m: Message): seq<Item> {
    match m
    case Events(region, events) => EventItems(region, events)
    case _ => [Whole(m)]
  }

  /** A receiver sees each event of a message by itself, in order, and any other message whole. */
  lemma ItemsAre(m: Message)
    ensures m.Events? ==> |ItemsOf(m)| == |m.events| &&
                          forall i :: 0 <= i < |m.events| ==> ItemsOf(m)[i] == One(m.region, m.events[i])
    ensures !m.Events? ==> ItemsOf(m) == [Whole(m)]
  {
  }

  function Items(ms: seq<Message>): seq<Item> {
    if ms == [] then [] else Items(ms[..|ms| - 1]) + ItemsOf(ms[|ms| - 1])
  }

  /** The messages that reach the frontend, and the chunks that do not. */
  function Passed(ms: seq<Message>, downloading: bool): seq<Message> {
    if ms == [] then []
    else
      var last := ms[|ms| - 1];
      Passed(ms[..|ms| - 1], downloading) + (if downloading && last.Chunk? then [] else [last])
  }

  function Diverted(ms: seq<Message>, downloading: bool): seq<string> {
    if ms == [] then []
    else
      var last := ms[|ms| - 1];
      Diverted(ms[..|ms| - 1], downloading) + (if downloading && last.Chunk? then [last.data] else [])
  }

  lemma ItemsOne(ms: seq<Message>, m: Message)
    ensures Items(ms + [m]) == Items(ms) + ItemsOf(m)
  {
    assert (ms + [m])[..|ms|] == ms;
  }

  /** Lists built from the same pieces, grouped differently. */
  lemma Regroup<T>(ab: seq<T>, ai: seq<T>, b: seq<T>, a: seq<T>, i: seq<T>, l: seq<T>)
    requires ab == ai + l && ai == a + i && b == i + l
    ensures ab == a + b
  {
  }

  lemma {:induction false} ItemsAppend(a: seq<Message>, b: seq<Message>)
    ensures Items(a + b) == Items(a) + Items(b)
  {
    if b == [] {
      assert a + b == a;
    } else {
      var init, last := b[..|b| - 1], b[|b| - 1];
      ItemsAppend(a, init);
      Split(a, init, last, b);
      ItemsOne(a + init, last);
      ItemsOne(init, last);
      Regroup(Items(a + b), Items(a + init), Items(b), Items(a), Items(init), ItemsOf(last));
    }
  }

  lemma Split<T>(a: seq<T>, init: seq<T>, last: T, b: seq<T>)
    requires b != [] && init == b[..|b| - 1] && last == b[|b| - 1]
    ensures b == init + [last] && a + b == (a + init) + [last]
  {
  }

  lemma {:induction false} PassedAppend(a: seq<Message>, b: seq<Message>, downloading: bool)
    ensures Passed(a + b, downloading) == Passed(a, downloading) + Passed(b, downloading)
    ensures Diverted(a + b, downloading) == Diverted(a, downloading) + Diverted(b, downloading)
  {
    if b == [] {
      assert a + b == a;
    } else {
      assert (a + b)[..|a + b| - 1] == a + b[..|b| - 1];
      PassedAppend(a, b[..|b| - 1], downloading);
    }
  }

  lemma OneMessage(m: Message, downloading: bool)
    ensures Items([m]) == ItemsOf(m)
    ensures Passed([m], downloading) == if downloading && m.Chunk? then [] else [m]
    ensures Diverted([m], downloading) == if downloading && m.Chunk? then [m.data] else []
  {
    assert [m][..0] == [];
  }

  /** A merged message carries the messages of one region it was merged from, and is small apart from the last. */
  ghost predicate Merges(m: Message, parts: seq<Message>) {
    && m.Events? && parts != []
    && AllEvents(parts, m.region)
    && Items(parts) == ItemsOf(m)
    && |m.events| < MAX_BATCH_EVENTS + |parts[|parts| - 1].events|
  }

  ghost predicate AllEvents(parts: seq<Message>, region: string) {
    forall i :: 0 <= i < |parts| ==> parts[i].Events? && parts[i].region == region
  }

  lemma EventItemsAppend(region: string, a: seq<string>, b: seq<string>)
    ensures EventItems(region, a) + EventItems(region, b) == EventItems(region, a + b)
  {
  }

  lemma MergeNone(m: Message)
    requires m.Events?
    ensures Merges(m, [m])
  {
    OneMessage(m, false);
  }

  lemma MergeOne(m: Message, parts: seq<Message>, next: Message)
    requires Merges(m, parts) && next.Events? && next.region == m.region && |m.events| < MAX_BATCH_EVENTS
    ensures Merges(Events(m.region, m.events + next.events), parts + [next])
  {
    var all := parts + [next];
    assert all[..|all| - 1] == parts && all[|all| - 1] == next;
    assert Items(all) == Items(parts) + ItemsOf(next);
    EventItemsAppend(m.region, m.events, next.events);
  }

  lemma {:induction false} EventsPass(parts: seq<Message>, region: string, downloading: bool)
    requires AllEvents(parts, region)
    ensures Passed(parts, downloading) == parts && Diverted(parts, downloading) == []
  {
    if parts != [] {
      var init, last := parts[..|parts| - 1], parts[|parts| - 1];
      EventsPass(init, region, downloading);
      PassedAppend(init, [last], downloading);
      OneMessage(last, downloading);
      assert init + [last] == parts;
    }
  }

  /** What a message handed on stands for: itself, or the messages it was merged from. */
  ghost predicate StandsFor(m: Message, parts: seq<Message>) {
    parts == [m] || Merges(m, parts)
  }

  function Flat(segments: seq<seq<Message>>): seq<Message> {
    if segments == [] then [] else Flat(segments[..|segments| - 1]) + segments[|segments| - 1]
  }

  /** The messages passed fall into consecutive segments, one for each message handed on. */
  ghost predicate Segmented(out: seq<Message>, segments: seq<seq<Message>>, passed: seq<Message>) {
    && |out| == |segments| && Flat(segments) == passed
    && forall i :: 0 <= i < |out| ==> StandsFor(out[i], segments[i])
  }

  lemma SegmentedThen(out: seq<Message>, segments: seq<seq<Message>>, passed: seq<Message>, m: Message,
    parts: seq<Message>)
    requires Segmented(out, segments, passed) && StandsFor(m, parts)
    ensures Segmented(out + [m], segments + [parts], passed + parts)
  {
    assert (segments + [parts])[..|segments|] == segments;
  }

  /** Nothing is lost, repeated or reordered: the items handed on are the items passed. */
  lemma {:induction false} StreamKept(out: seq<Message>, segments: seq<seq<Message>>, passed: seq<Message>)
    requires Segmented(out, segments, passed)
    ensures Items(out) == Items(passed)
  {
    if out != [] {
      var k := |out| - 1;
      StreamKept(out[..k], segments[..k], Flat(segments[..k]));
      assert StandsFor(out[k], segments[k]);
      OneMessage(out[k], false);
      ItemsAppend(Flat(segments[..k]), segments[k]);
    }
  }

  lemma Rotate(parts: seq<Message>, m: Message, rest: seq<Message>)
    ensures parts + ([m] + rest) == (parts + [m]) + rest
  {
  }

  class Server {
    // Messages from the connection that have arrived, and those handed to the frontend.
    var recv: seq<Message>
    var inbound: seq<Message>
    var downloading: bool
    var saved: seq<string>

    // The messages taken that no download diverted, cut into what each message handed on stands for.
    ghost var passed: seq<Message>
    ghost var segments: seq<seq<Message>>

    ghost predicate Valid()
      reads this`inbound, this`passed, this`segments
    {
      Segmented(inbound, segments, passed)
    }

    constructor ()
      ensures Valid() && recv == [] && inbound == [] && saved == [] && passed == []
    {
      recv, inbound, downloading, saved, passed, segments := [], [], false, [], [], [];
    }

    method Hand(m: Message, ghost parts: seq<Message>)
      requires Valid() && StandsFor(m, parts)
      modifies this`inbound, this`passed, this`segments
      ensures Valid() && passed == old(passed) + parts
      ensures inbound == old(inbound) + [m] && segments == old(segments) + [parts]
    {
      SegmentedThen(inbound, segments, passed, m, parts);
      inbound := inbound + [m];
      passed, segments := passed + parts, segments + [parts];
    }

    /**
     Main result: one call takes a message and some of those that have arrived
     after it, and hands on exactly their events and other messages, in order,
     minus the chunks a running download takes. Each message handed on stands
     for its own stretch of what was passed, and a merged one stays below 512
     events plus the last message merged into it.
     */
    method DispatchInbound(msg: Message) returns (ghost taken: seq<Message>)
      requires Valid()
      modifies this`recv, this`inbound, this`saved, this`passed, this`segments
      ensures Valid() && old(segments) <= segments && taken + recv == [msg] + old(recv)
      ensures passed == old(passed) + Passed(taken, downloading)
      ensures saved == old(saved) + Diverted(taken, downloading)
      decreases |recv|, 1
    {
      if msg.Events? {
        taken := DispatchEvents(msg);
      } else {
        Forward(msg);
        taken := [msg];
      }
    }

    /** A chunk goes to the running download if there is one; anything else is handed on as it is. */
    method Forward(msg: Message)
      requires Valid() && !msg.Events?
      modifies this`inbound, this`saved, this`passed, this`segments
      ensures Valid() && old(segments) <= segments
      ensures passed == old(passed) + Passed([msg], downloading)
      ensures saved == old(saved) + Diverted([msg], downloading)
    {
      OneMessage(msg, downloading);
      if msg.Chunk? && downloading {
        saved := saved + [msg.data];
        assert passed + [] == passed;
      } else {
        Hand(msg, [msg]);
        assert saved + [] == saved;
      }
    }

    method DispatchEvents(msg: Message) returns (ghost taken: seq<Message>)
      requires Valid() && msg.Events?
      modifies this`recv, this`inbound, this`saved, this`passed, this`segments
      ensures Valid() && old(segments) <= segments && taken + recv == [msg] + old(recv)
      ensures passed == old(passed) + Passed(taken, downloading)
      ensures saved == old(saved) + Diverted(taken, downloading)
      decreases |recv|, 0
    {
      var merged, next, parts := Drain(msg);
      Hand(merged, parts);
      taken := parts;
      if next == [] {
        NothingMore(parts, merged.region, recv, downloading);
        return;
      }
      ghost var rest := recv;
      ghost var more := DispatchInbound(next[0]);
      taken := parts + more;
      Combined(old(passed), passed, old(saved), saved, parts, more, merged.region, downloading);
      assert next == [next[0]];
      Stitch(parts, more, recv, next, rest, [msg] + old(recv));
    }

    method Receive() returns (m: Message)
      requires recv != []
      modifies this`recv
      ensures old(recv) == [m] + recv
    {
      m := recv[0];
      recv := recv[1..];
    }

    /**
     Merges what has arrived until it is enough, nothing more has arrived, or something else has; that is
     handed back.
     */
    method Drain(msg: Message) returns (merged: Message, next: seq<Message>, ghost parts: seq<Message>)
      requires msg.Events?
      modifies this`recv
      ensures Merges(merged, parts) && |next| <= 1
      ensures parts + (next + recv) == [msg] + old(recv)
      ensures next != [] ==> |recv| < |old(recv)|
    {
      merged, next, parts := msg, [], [msg];
      ghost var all := [msg] + recv;
      MergeNone(msg);
      while |merged.events| < MAX_BATCH_EVENTS
        invariant Merges(merged, parts) && merged.region == msg.region
        invariant parts + recv == all && |recv| <= |old(recv)|
        decreases |recv|
      {
        if |recv| == 0 {
          break;
        }
        if * {
          break;
        }
        var m := Receive();
        Rotate(parts, m, recv);
        if m.Events? && m.region == msg.region {
          MergeOne(merged, parts, m);
          merged := Events(msg.region, merged.events + m.events);
          parts := parts + [m];
        } else {
          next := [m];
          return;
        }
      }
      assert [] + recv == recv;
    }
  }

  lemma NothingMore(parts: seq<Message>, region: string, recv: seq<Message>, downloading: bool)
    requires AllEvents(parts, region)
    ensures Passed(parts, downloading) == parts && Diverted(parts, downloading) == []
    ensures [] + recv == recv
  {
    EventsPass(parts, region, downloading);
  }

  lemma Combined(passed0: seq<Message>, passed1: seq<Message>, saved0: seq<string>, saved1: seq<string>,
                 parts: seq<Message>, more: seq<Message>, region: string, downloading: bool)
    requires AllEvents(parts, region)
    requires passed1 == (passed0 + parts) + Passed(more, downloading) && saved1 == saved0 + Diverted(more, downloading)
    ensures passed1 == passed0 + Passed(parts + more, downloading) &&
      saved1 == saved0 + Diverted(parts + more, downloading)
  {
    EventsPass(parts, region, downloading);
    PassedAppend(parts, more, downloading);
    assert (passed0 + parts) + Passed(more, downloading) == passed0 + (parts + Passed(more, downloading));
    assert [] + Diverted(more, downloading) == Diverted(more, downloading);
  }

  lemma Stitch(parts: seq<Message>, more: seq<Message>, after: seq<Message>, next: seq<Message>, rest: seq<Message>,
    all: seq<Message>)
    requires more + after == next + rest && parts + (next + rest) == all
    ensures (parts + more) + after == all
  {
    assert (parts + more) + after == parts + (more + after);
  }
}
