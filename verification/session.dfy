/** A session of the midpoint screen: the states reached from the initial state
    by any sequence of user events, and the invariants they all keep. */
module Session {
  import opened Options
  import opened Geometry
  import opened MidwayPointMap

  /** A user event on the screen */
  datatype Event = Selected(slot: Slot, place: Coordinate) | FindPressed

  function Step(s: State, e: Event): State {
    match e
    case Selected(k, place) => Select(s, k, place)
    case FindPressed => FindMidpoint(s)
  }

  /** The state after the events, in order, starting from `s` */
  function Run(s: State, events: seq<Event>): State
    decreases |events|
  {
    if events == [] then s else Run(Step(s, events[0]), events[1..])
  }

  /** What holds of every state the screen can reach: a midpoint exists only
      once both slots are set, a full pair of slots is always what the map
      frames, and the viewport spans are never negative. */
  predicate Consistent(s: State) {
    && (s.midpoint.Some? ==> s.BothSet())
    && (s.BothSet() ==> s.region == CalculateRegion(s.location1.value, s.location2.value))
    && s.region.latitudeDelta >= 0.0
    && s.region.longitudeDelta >= 0.0
  }

  lemma InitialConsistent()
    ensures Consistent(Initial())
  {
  }

  lemma StepPreservesConsistent(s: State, e: Event)
    requires Consistent(s)
    ensures Consistent(Step(s, e))
  {
  }

  lemma {:induction false} RunPreservesConsistent(s: State, events: seq<Event>)
    requires Consistent(s)
    ensures Consistent(Run(s, events))
    decreases |events|
  {
    if events != [] {
      StepPreservesConsistent(s, events[0]);
      RunPreservesConsistent(Step(s, events[0]), events[1..]);
    }
  }

  /** Every state reached from the initial state is consistent. */
  lemma ReachableConsistent(events: seq<Event>)
    ensures Consistent(Run(Initial(), events))
  {
    InitialConsistent();
    RunPreservesConsistent(Initial(), events);
  }

  /** The place the last selection into slot `k` stored, or `current` when no
      event selects into `k` */
  function LastSelected(current: Option<Coordinate>, k: Slot, events: seq<Event>): Option<Coordinate>
    decreases |events|
  {
    if events == [] then current
    else
      var next := if events[0].Selected? && events[0].slot == k then Some(events[0].place) else current;
      LastSelected(next, k, events[1..])
  }

  /** A slot only ever holds the place of the last selection into it: no other
      event, and no selection into the other slot, changes it. */
  lemma {:induction false} RunSlot(s: State, k: Slot, events: seq<Event>)
    ensures Run(s, events).SlotValue(k) == LastSelected(s.SlotValue(k), k, events)
    decreases |events|
  {
    if events != [] {
      var e := events[0];
      var t := Step(s, e);
      if e.Selected? {
        if e.slot == k {
          assert t.SlotValue(k) == Some(e.place);
        } else {
          assert Other(e.slot) == k;
          assert t.SlotValue(k) == s.SlotValue(k);
        }
      }
      RunSlot(t, k, events[1..]);
    }
  }

  /** After "Find Midpoint", the midpoint is that of the two slots whenever
      both are set, whatever events came before. */
  lemma RunThenFind(s: State, events: seq<Event>)
    requires Run(s, events).BothSet()
    ensures Run(s, events + [FindPressed]).midpoint
         == Some(Midpoint(Run(s, events).location1.value, Run(s, events).location2.value))
  {
    RunAppend(s, events, [FindPressed]);
  }

  /** Running two event sequences in turn is running their concatenation. */
  lemma {:induction false} RunAppend(s: State, xs: seq<Event>, ys: seq<Event>)
    ensures Run(s, xs + ys) == Run(Run(s, xs), ys)
    decreases |xs|
  {
    if xs == [] {
      assert xs + ys == ys;
    } else {
      assert (xs + ys)[0] == xs[0];
      assert (xs + ys)[1..] == xs[1..] + ys;
      RunAppend(Step(s, xs[0]), xs[1..], ys);
    }
  }
}
