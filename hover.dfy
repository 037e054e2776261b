/**
 * The hover pulse on the social links: on `mouseenter` a link gets the class
 * `bounce` at once, and a one-shot timer removes that class 1000 ms later.
 * No timer is ever cancelled, so every entry schedules its own removal, and
 * the oldest removal still pending clears the class even when a later entry
 * has just set it again.
 *
 * Time is explicit: entries carry their time stamp, and the pending removals
 * of a link are the due times of its timers, earliest first.
 */
module HoverPulse {

  const BounceClass := "bounce"

  /** Delay between an entry and the removal it schedules, in milliseconds. */
  const PulseMs: int := 1000

  /** A link's class list, the due times of its pending removals, and the current time. */
  datatype Pulse = Pulse(classes: set<string>, pending: seq<int>, now: int)

  predicate Sorted(s: seq<int>)
  {
    forall i, j :: 0 <= i < j < |s| ==> s[i] <= s[j]
  }

  /**
   * Removals fire in the order they were scheduled, and none is due more
   * than one pulse after the current time.
   */
  ghost predicate Inv(p: Pulse)
  {
    Sorted(p.pending) && forall i :: 0 <= i < |p.pending| ==> p.pending[i] <= p.now + PulseMs
  }

  /** The `mouseenter` handler at time t: add the class, schedule its removal. */
  function Enter(p: Pulse, t: int): (r: Pulse)
    requires Inv(p) && p.now <= t
    ensures Inv(r)
    ensures BounceClass in r.classes && r.classes - {BounceClass} == p.classes - {BounceClass}
    ensures r.pending == p.pending + [t + PulseMs] && r.now == t
  {
    Pulse(p.classes + {BounceClass}, p.pending + [t + PulseMs], t)
  }

  /**
   * The earliest pending timer fires: the class goes, whatever entries came
   * after the one that scheduled this removal.
   */
  function Fire(p: Pulse): (r: Pulse)
    requires Inv(p) && p.pending != []
    ensures Inv(r)
    ensures BounceClass !in r.classes && r.classes - {BounceClass} == p.classes - {BounceClass}
    ensures r.pending == p.pending[1..]
    ensures r.now == if p.now < p.pending[0] then p.pending[0] else p.now
  {
    var due := p.pending[0];
    Pulse(p.classes - {BounceClass}, p.pending[1..], if p.now < due then due else p.now)
  }

  /** What can happen to a link: a pointer entry at a time, or its earliest timer firing. */
  datatype Event = MouseEnter(at: int) | RemovalFires

  /** Entries arrive in time order, and a timer fires only when one is pending. */
  ghost predicate Feasible(p: Pulse, events: seq<Event>)
    requires Inv(p)
    decreases |events|
  {
    if events == [] then true
    else match events[0]
      case MouseEnter(t) => p.now <= t && Feasible(Enter(p, t), events[1..])
      case RemovalFires => p.pending != [] && Feasible(Fire(p), events[1..])
  }

  function Entries(events: seq<Event>): nat
  {
    if events == [] then 0
    else (if events[0].MouseEnter? then 1 else 0) + Entries(events[1..])
  }

  function Removals(events: seq<Event>): nat
  {
    if events == [] then 0
    else (if events[0].RemovalFires? then 1 else 0) + Removals(events[1..])
  }

  /**
   * A run of events. The class is present exactly when the last event was an
   * entry: one removal clears it even if entries happened after that removal
   * was scheduled. Every entry leaves one pending removal until one fires,
   * and no other class is touched.
   */
  function Run(p: Pulse, events: seq<Event>): (r: Pulse)
    requires Inv(p) && Feasible(p, events)
    ensures Inv(r)
    ensures r.classes - {BounceClass} == p.classes - {BounceClass}
    ensures BounceClass in r.classes <==>
              if events == [] then BounceClass in p.classes
              else events[|events| - 1].MouseEnter?
    ensures |r.pending| + Removals(events) == |p.pending| + Entries(events)
    decreases |events|
  {
    if events == [] then p
    else match events[0]
      case MouseEnter(t) => Run(Enter(p, t), events[1..])
      case RemovalFires => Run(Fire(p), events[1..])
  }

  /**
   * One entry on an idle link: the class is set at once and cleared exactly
   * one pulse later, leaving nothing pending.
   */
  lemma SinglePulse(p: Pulse, t: int)
    requires Inv(p) && p.pending == [] && p.now <= t
    ensures BounceClass in Enter(p, t).classes
    ensures Fire(Enter(p, t)).now == t + PulseMs
    ensures Fire(Enter(p, t)) == Pulse(p.classes - {BounceClass}, [], t + PulseMs)
  {
  }

  /**
   * Two entries less than a pulse apart: the first removal clears the class
   * one pulse after the FIRST entry, so fewer than PulseMs after the second,
   * while the second removal is still pending. Two removals were pending at
   * once.
   */
  lemma StaleRemoval(p: Pulse, t1: int, t2: int)
    requires Inv(p) && p.pending == [] && p.now <= t1 < t2 < t1 + PulseMs
    ensures |Enter(Enter(p, t1), t2).pending| == 2
    ensures BounceClass !in Fire(Enter(Enter(p, t1), t2)).classes
    ensures Fire(Enter(Enter(p, t1), t2)).now == t1 + PulseMs < t2 + PulseMs
    ensures Fire(Enter(Enter(p, t1), t2)).pending == [t2 + PulseMs]
  {
  }

  /** A social link with the hover handler state of the page. */
  class SocialLink {
    var classList: set<string>
    var hasListener: bool
    var pending: seq<int>
    var now: int

    ghost function State(): Pulse
      reads this
    {
      Pulse(classList, pending, now)
    }

    ghost predicate Valid()
      reads this
    {
      Inv(State())
    }

    constructor (classList: set<string>, now: int)
      ensures Valid() && !hasListener
      ensures State() == Pulse(classList, [], now)
    {
      this.classList := classList;
      hasListener := false;
      pending := [];
      this.now := now;
    }

    /** The pointer enters the link at time t; without a listener nothing but time changes. */
    method MouseEnter(t: int)
      requires Valid() && now <= t
      modifies this
      ensures Valid() && hasListener == old(hasListener)
      ensures State() == if hasListener then Enter(old(State()), t) else old(State()).(now := t)
    {
      if hasListener {
        classList := classList + {BounceClass};
        pending := pending + [t + PulseMs];
      }
      now := t;
    }

    /** The earliest pending removal timer fires. */
    method RemovalFires()
      requires Valid() && pending != []
      modifies this
      ensures Valid() && hasListener == old(hasListener)
      ensures State() == Fire(old(State()))
    {
      var due := pending[0];
      classList := classList - {BounceClass};
      pending := pending[1..];
      if now < due {
        now := due;
      }
    }
  }

  /**
   * `addSocialHoverEffects`: register the handler on every link; an empty
   * collection changes nothing. No link's classes or timers change.
   */
  method AddSocialHoverEffects(links: seq<SocialLink>)
    modifies set l | l in links
    ensures forall l :: l in links ==> l.hasListener
    ensures forall l :: l in links ==> l.State() == old(l.State())
  {
    for i := 0 to |links|
      invariant forall j :: 0 <= j < i ==> links[j].hasListener
      invariant forall l :: l in links ==> l.State() == old(l.State())
    {
      links[i].hasListener := true;
    }
  }
}
