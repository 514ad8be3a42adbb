/** The one-shot reveal latch that the About, Services, Projects and Contact
    sections each mount: an observer watches the section and, on the first
    intersecting notification, marks it visible and disconnects. */
module Reveal {

  /** `visible` drives the entrance transition; `observing` says whether the
      observer is still connected, so that notifications still arrive. */
  datatype Latch = Latch(visible: bool, observing: bool)

  /** Mounting: nothing visible yet; the observer is connected only when the
      section's element exists. */
  function Mount(targetPresent: bool): (l: Latch)
    ensures !l.visible
    ensures l.observing <==> targetPresent
  {
    Latch(false, targetPresent)
  }

  /** Once visible, the observer is gone. */
  predicate Consistent(l: Latch)
  {
    l.visible ==> !l.observing
  }

  /** One notification from the observer. None arrives after a disconnect;
      a non-intersecting one is ignored; an intersecting one sets `visible`
      and disconnects. */
  function Deliver(l: Latch, isIntersecting: bool): (r: Latch)
    ensures Consistent(l) ==> Consistent(r)
    ensures l.visible ==> r.visible
  {
    if l.observing && isIntersecting then Latch(true, false) else l
  }

  /** The cleanup that runs when the section unmounts; it also runs when the
      latch already disconnected itself. */
  function Teardown(l: Latch): (r: Latch)
    ensures !r.observing && r.visible == l.visible
    ensures !l.observing ==> r == l
  {
    Latch(l.visible, false)
  }

  /** A whole stream of notifications, in order. */
  function DeliverAll(l: Latch, events: seq<bool>): (r: Latch)
    decreases |events|
  {
    if events == [] then l else DeliverAll(Deliver(l, events[0]), events[1..])
  }

  /** After any stream, the section is visible exactly when it already was
      or the observer was connected and some notification intersected; the
      observer is still connected exactly when it was and none did. */
  lemma {:induction false} DeliverAllExactlyOnce(l: Latch, events: seq<bool>)
    ensures DeliverAll(l, events).visible <==>
      l.visible || (l.observing && exists k :: 0 <= k < |events| && events[k])
    ensures DeliverAll(l, events).observing <==>
      l.observing && forall k :: 0 <= k < |events| ==> !events[k]
    decreases |events|
  {
    if events != [] {
      var l' := Deliver(l, events[0]);
      DeliverAllExactlyOnce(l', events[1..]);
      if l.observing && !events[0] {
        assert forall k :: 0 <= k < |events[1..]| ==> events[1..][k] == events[k + 1];
        if exists k :: 0 <= k < |events| && events[k] {
          var k :| 0 <= k < |events| && events[k];
          assert events[1..][k - 1];
        }
      }
    }
  }

  /** Visibility never goes back: once a stream has made the section
      visible, every longer stream leaves it visible. */
  lemma {:induction false} VisibleStays(l: Latch, events: seq<bool>, more: seq<bool>)
    requires DeliverAll(l, events).visible
    ensures DeliverAll(l, events + more).visible
    decreases |events|
  {
    if events == [] {
      assert events + more == more;
      StaysVisible(l, more);
    } else {
      assert (events + more)[1..] == events[1..] + more;
      VisibleStays(Deliver(l, events[0]), events[1..], more);
    }
  }

  /** Once the section is visible the observer is gone, so no later
      notification changes anything. */
  lemma {:induction false} VisibleIsFinal(l: Latch, events: seq<bool>)
    requires Consistent(l) && l.visible
    ensures DeliverAll(l, events) == l
  {
    DeliverAllExactlyOnce(l, events);
  }

  /** A visible latch stays visible through any stream. */
  lemma {:induction false} StaysVisible(l: Latch, events: seq<bool>)
    requires l.visible
    ensures DeliverAll(l, events).visible
    decreases |events|
  {
    if events != [] {
      StaysVisible(Deliver(l, events[0]), events[1..]);
    }
  }
}
