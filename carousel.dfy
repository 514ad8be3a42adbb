/** The bounded carousel controller of the project showcase: an index into a
    fixed, non-empty list of items and an animation lock that drops every
    index-changing request until the cooldown release clears it. */
module Carousel {

  /** The controller's state as a value: the active index and the lock. */
  datatype View = View(index: nat, animating: bool)

  /** The events the controller reacts to: the two arrow buttons, a click on
      the indicator dot of position `target`, and the deferred release that
      each accepted transition schedules. */
  datatype Event = NextClick | PrevClick | DotClick(target: nat) | CooldownEnd

  /** The index after `i` in a list of `n` items, wrapping past the end. */
  function NextIndex(i: nat, n: nat): (r: nat)
    requires i < n
    ensures r < n
    ensures r == if i == n - 1 then 0 else i + 1
  {
    (i + 1) % n
  }

  /** The index before `i`; `n` is added first so the dividend is never
      negative, whatever the language's remainder does with negatives. */
  function PrevIndex(i: nat, n: nat): (r: nat)
    requires i < n
    ensures r < n
    ensures r == if i == 0 then n - 1 else i - 1
  {
    (i - 1 + n) % n
  }

  /** The two moves undo each other. */
  lemma NextPrevInverse(i: nat, n: nat)
    requires i < n
    ensures PrevIndex(NextIndex(i, n), n) == i
    ensures NextIndex(PrevIndex(i, n), n) == i
  {
  }

  /** An event that an `n`-item carousel can receive: dots exist only for
      the positions of the list. */
  predicate WellFormed(n: nat, e: Event)
  {
    e.DotClick? ==> e.target < n
  }

  predicate AllWellFormed(n: nat, es: seq<Event>)
  {
    forall k :: 0 <= k < |es| ==> WellFormed(n, es[k])
  }

  /** One event on a carousel of `n` items. Requests are dropped while the
      lock is held; an accepted one moves the index and takes the lock; the
      release clears the lock and keeps the index. */
  function Step(n: nat, s: View, e: Event): (t: View)
    requires s.index < n && WellFormed(n, e)
    ensures t.index < n
    ensures e.CooldownEnd? ==> t == View(s.index, false)
    ensures !e.CooldownEnd? ==> t.animating
  {
    match e
    case CooldownEnd => View(s.index, false)
    case NextClick => if s.animating then s else View(NextIndex(s.index, n), true)
    case PrevClick => if s.animating then s else View(PrevIndex(s.index, n), true)
    case DotClick(target) => if s.animating then s else View(target, true)
  }

  /** The state after a whole sequence of events, in order. */
  function Run(n: nat, s: View, es: seq<Event>): (t: View)
    requires s.index < n && AllWellFormed(n, es)
    ensures t.index < n
    decreases |es|
  {
    if es == [] then s
    else Run(n, Step(n, s, es[0]), es[1..])
  }

  /** While the lock is held, no sequence of arrow or dot clicks changes
      anything: requests are dropped, not queued. */
  lemma {:induction false} LockedDropsRequests(n: nat, s: View, es: seq<Event>)
    requires s.index < n && AllWellFormed(n, es) && s.animating
    requires forall k :: 0 <= k < |es| ==> !es[k].CooldownEnd?
    ensures Run(n, s, es) == s
    decreases |es|
  {
    if es != [] {
      LockedDropsRequests(n, Step(n, s, es[0]), es[1..]);
    }
  }

  /** `k` rounds of "next, then wait for the release". */
  function NextRounds(k: nat): (es: seq<Event>)
    ensures |es| == 2 * k
    ensures forall j :: 0 <= j < |es| ==> es[j] == if j % 2 == 0 then NextClick else CooldownEnd
  {
    if k == 0 then [] else [NextClick, CooldownEnd] + NextRounds(k - 1)
  }

  /** Each accepted next click advances the index by one modulo `n`. */
  lemma {:induction false} NextRoundsAdvance(n: nat, i: nat, k: nat)
    requires i < n
    ensures AllWellFormed(n, NextRounds(k))
    ensures Run(n, View(i, false), NextRounds(k)) == View((i + k) % n, false)
    decreases k
  {
    if k > 0 {
      var es := NextRounds(k);
      var j := NextIndex(i, n);
      assert es[2..] == NextRounds(k - 1);
      NextRoundsAdvance(n, j, k - 1);
      assert Run(n, View(i, false), es) == Run(n, View(j, false), es[2..]) by {
        assert es[1..][1..] == es[2..];
      }
      assert (j + (k - 1)) % n == (i + k) % n by {
        ModShift(i, k, n);
      }
    }
  }

  /** Helper arithmetic: advancing by one with wraparound and then by
      `k - 1` is advancing by `k`. */
  lemma ModShift(i: nat, k: nat, n: nat)
    requires i < n && k > 0
    ensures ((i + 1) % n + (k - 1)) % n == (i + k) % n
  {
    if i == n - 1 {
      assert (i + 1) % n == 0 by { ModUnique(i + 1, n, 1, 0); }
      ModPlusDivisor(k - 1, n);
      assert (i + k) == (k - 1) + n;
    } else {
      assert (i + 1) % n == i + 1 by { ModUnique(i + 1, n, 0, i + 1); }
    }
  }

  /** The remainder is the unique `r` with `x == q * n + r` and `0 <= r < n`. */
  lemma ModUnique(x: int, n: nat, q: int, r: int)
    requires n > 0 && x == q * n + r && 0 <= r < n
    ensures x % n == r
  {
    var q', r' := x / n, x % n;
    assert x == q' * n + r';
    assert (q - q') * n == r' - r;
    if q > q' {
      assert (q - q') * n >= n by { MulAtLeast(q - q', n); }
    } else if q < q' {
      assert (q' - q) * n >= n by { MulAtLeast(q' - q, n); }
    }
  }

  lemma MulAtLeast(a: int, n: nat)
    requires a >= 1
    ensures a * n >= n
  {
  }

  /** Adding the divisor does not change the remainder. */
  lemma ModPlusDivisor(m: nat, n: nat)
    requires n > 0
    ensures (m + n) % n == m % n
  {
    var q, r := m / n, m % n;
    assert m == q * n + r;
    assert m + n == (q + 1) * n + r;
    ModUnique(m + n, n, q + 1, r);
  }

  /** A full cycle of `n` accepted next clicks brings the carousel back. */
  lemma FullCycle(n: nat, i: nat)
    requires i < n
    ensures Run(n, View(i, false), NextRounds(n)) == View(i, false)
  {
    NextRoundsAdvance(n, i, n);
    ModPlusDivisor(i, n);
    ModUnique(i, n, 0, i);
  }

  /** An accepted next, its release and an accepted previous return to the
      starting index, and the other way round. */
  lemma NextThenPrevReturns(n: nat, i: nat)
    requires i < n
    ensures Run(n, View(i, false), [NextClick, CooldownEnd, PrevClick]) == View(i, true)
    ensures Run(n, View(i, false), [PrevClick, CooldownEnd, NextClick]) == View(i, true)
  {
  }

  /** The controller as the section holds it: a fixed list of items, the
      active index and the animation lock. */
  class Controller<T> {
    const items: seq<T>
    var activeIndex: nat
    var animating: bool

    ghost predicate Valid()
      reads this
    {
      activeIndex < |items|
    }

    function State(): View
      reads this
    {
      View(activeIndex, animating)
    }

    /** Mounting: index 0, no lock. */
    constructor (items: seq<T>)
      requires |items| > 0
      ensures Valid()
      ensures this.items == items && activeIndex == 0 && !animating
    {
      this.items := items;
      activeIndex := 0;
      animating := false;
    }

    /** The right arrow. */
    method Next()
      requires Valid()
      modifies this
      ensures Valid()
      ensures State() == Step(|items|, old(State()), NextClick)
      ensures old(animating) ==> activeIndex == old(activeIndex) && animating
      ensures !old(animating) ==> activeIndex == NextIndex(old(activeIndex), |items|) && animating
    {
      if animating {
        return;
      }
      animating := true;
      activeIndex := (activeIndex + 1) % |items|;
    }

    /** The left arrow. */
    method Prev()
      requires Valid()
      modifies this
      ensures Valid()
      ensures State() == Step(|items|, old(State()), PrevClick)
      ensures old(animating) ==> activeIndex == old(activeIndex) && animating
      ensures !old(animating) ==> activeIndex == PrevIndex(old(activeIndex), |items|) && animating
    {
      if animating {
        return;
      }
      animating := true;
      activeIndex := (activeIndex - 1 + |items|) % |items|;
    }

    /** A click on the indicator dot of position `target`; re-selecting the
      active item still takes the lock. */
    method JumpTo(target: nat)
      requires Valid() && target < |items|
      modifies this
      ensures Valid()
      ensures State() == Step(|items|, old(State()), DotClick(target))
      ensures old(animating) ==> activeIndex == old(activeIndex) && animating
      ensures !old(animating) ==> activeIndex == target && animating
    {
      if !animating {
        animating := true;
        activeIndex := target;
      }
    }

    /** The deferred release scheduled by an accepted transition; it exists
      only while the lock is held. */
    method EndCooldown()
      requires Valid() && animating
      modifies this
      ensures Valid()
      ensures State() == Step(|items|, old(State()), CooldownEnd)
      ensures activeIndex == old(activeIndex) && !animating
    {
      animating := false;
    }

    /** The item the section renders. */
    function ActiveItem(): (item: T)
      reads this
      requires Valid()
      ensures item in items
    {
      items[activeIndex]
    }
  }
}
