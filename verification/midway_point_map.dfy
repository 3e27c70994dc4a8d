/** The state of the midpoint screen and its two user events: selecting a place
    into one of the two search slots, and pressing "Find Midpoint". Each event is
    one atomic transition of an immutable `State`. */
module MidwayPointMap {
  import opened Options
  import opened Geometry

  /** Which of the two search boxes a selection comes from */
  datatype Slot = First | Second

  /** The screen's state: the two selection slots, the last computed midpoint
      and the viewport shown by the map. */
  datatype State = State(
    location1: Option<Coordinate>,
    location2: Option<Coordinate>,
    midpoint: Option<Coordinate>,
    region: Region)
  {
    /** The content of the given slot */
    function SlotValue(k: Slot): Option<Coordinate> {
      match k
      case First => location1
      case Second => location2
    }

    /** True when both slots hold a place */
    predicate BothSet() {
      location1.Some? && location2.Some?
    }
  }

  /** The viewport the map opens on, before anything is selected */
  const InitialRegion := Region(37.78825, -122.4324, 0.0922, 0.0421)

  /** Nothing selected, no midpoint, the initial viewport */
  function Initial(): (s: State)
    ensures s.location1.None? && s.location2.None? && s.midpoint.None?
    ensures s.region.latitudeDelta > 0.0 && s.region.longitudeDelta > 0.0
  {
    State(None, None, None, InitialRegion)
  }

  function Other(k: Slot): Slot {
    match k
    case First => Second
    case Second => First
  }

  /** The setter alone: store `place` into slot `k` */
  function Store(s: State, k: Slot, place: Coordinate): (r: State)
    ensures r.SlotValue(k) == Some(place)
    ensures r.SlotValue(Other(k)) == s.SlotValue(Other(k))
    ensures r.midpoint == s.midpoint && r.region == s.region
  {
    match k
    case First => s.(location1 := Some(place))
    case Second => s.(location2 := Some(place))
  }

  /** The region branch of the selection handler. It reads the slots as they
      were BEFORE the selection (the values captured by the handler), never the
      slot just written: when both were set it frames the old pair, when one
      was set it frames that old value with the new place, and when neither
      was set it leaves the viewport alone. The slot being written plays no
      part in the choice. */
  function HandlerRegion(s: State, place: Coordinate): (r: Region)
    ensures s.BothSet() ==> r == CalculateRegion(s.location1.value, s.location2.value)
    ensures s.location1.Some? && s.location2.None? ==> r == CalculateRegion(s.location1.value, place)
    ensures s.location1.None? && s.location2.Some? ==> r == CalculateRegion(place, s.location2.value)
    ensures s.location1.None? && s.location2.None? ==> r == s.region
  {
    if s.location1.Some? && s.location2.Some? then
      CalculateRegion(s.location1.value, s.location2.value)
    else if s.location1.Some? then
      CalculateRegion(s.location1.value, place)
    else if s.location2.Some? then
      CalculateRegion(place, s.location2.value)
    else
      s.region
  }

  /** The effect that runs after a slot changes: once both slots hold a place,
      the viewport frames exactly those two places. */
  function SyncRegion(s: State): (r: State)
    ensures r.location1 == s.location1 && r.location2 == s.location2 && r.midpoint == s.midpoint
    ensures r.BothSet() ==> r.region == CalculateRegion(r.location1.value, r.location2.value)
    ensures !s.BothSet() ==> r == s
  {
    if s.BothSet() then s.(region := CalculateRegion(s.location1.value, s.location2.value)) else s
  }

  /** A place selected into slot `k`, as one step: setter, handler region
      update from the pre-selection slots, then the effect. */
  function Select(s: State, k: Slot, place: Coordinate): (r: State)
    ensures r.SlotValue(k) == Some(place)
    ensures r.SlotValue(Other(k)) == s.SlotValue(Other(k))
    // the midpoint is neither recomputed nor cleared: it goes stale
    ensures r.midpoint == s.midpoint
    ensures r.BothSet() ==> r.region == CalculateRegion(r.location1.value, r.location2.value)
    ensures !r.BothSet() ==> r.region == HandlerRegion(s, place)
    // with neither slot set before, the first selection does not move the map
    ensures s.location1.None? && s.location2.None? ==> r.region == s.region
  {
    var stored := Store(s, k, place).(region := HandlerRegion(s, place));
    SyncRegion(stored)
  }

  /** "Find Midpoint": with both slots set the midpoint of the two places is
      stored; otherwise nothing happens. Slots and viewport are never touched. */
  function FindMidpoint(s: State): (r: State)
    ensures r.location1 == s.location1 && r.location2 == s.location2 && r.region == s.region
    ensures s.BothSet() ==> r.midpoint.Some? && IsMidpointOf(r.midpoint.value, s.location1.value, s.location2.value)
    ensures !s.BothSet() ==> r == s
  {
    if s.BothSet() then s.(midpoint := Some(Midpoint(s.location1.value, s.location2.value))) else s
  }

  /** Pressing "Find Midpoint" twice is the same as pressing it once. */
  lemma FindMidpointIdempotent(s: State)
    ensures FindMidpoint(FindMidpoint(s)) == FindMidpoint(s)
  {
  }

  /** Selecting the same two places in either order gives the same state, and
      therefore the same midpoint once "Find Midpoint" is pressed. */
  lemma SelectOrderIndependent(s: State, a: Coordinate, b: Coordinate)
    ensures Select(Select(s, First, a), Second, b) == Select(Select(s, Second, b), First, a)
    ensures Select(Select(s, First, a), Second, b).region == CalculateRegion(a, b)
    ensures FindMidpoint(Select(Select(s, First, a), Second, b)).midpoint == Some(Midpoint(a, b))
  {
  }

  /** The handler's stale read: with slot 1 filled by `prev` and slot 2 empty,
      selecting `place` into slot 1 frames `prev` and `place`, although `prev` is
      no longer selected anywhere. */
  lemma ReselectFramesReplacedPlace(s: State, prev: Coordinate, place: Coordinate)
    requires s.location1 == Some(prev) && s.location2.None?
    ensures Select(s, First, place).location1 == Some(place)
    ensures Select(s, First, place).region == CalculateRegion(prev, place)
  {
  }

  /** The same stale read for slot 2 with slot 1 empty. */
  lemma ReselectSecondFramesReplacedPlace(s: State, prev: Coordinate, place: Coordinate)
    requires s.location1.None? && s.location2 == Some(prev)
    ensures Select(s, Second, place).location2 == Some(place)
    ensures Select(s, Second, place).region == CalculateRegion(place, prev)
  {
  }

  /** A consequence of the stale read: selecting the place already held by the
      only filled slot collapses the viewport to zero span on both axes. */
  lemma ReselectSamePlaceDegenerates(s: State, k: Slot, place: Coordinate)
    requires s.SlotValue(k) == Some(place) && s.SlotValue(Other(k)).None?
    ensures Select(s, k, place).region == Region(place.latitude, place.longitude, 0.0, 0.0)
    ensures Select(s, k, place).region.Degenerate()
  {
    RegionDegenerateIff(place, place);
  }

  /** The midpoint goes stale: after "Find Midpoint", selecting a different
      place into either slot keeps the midpoint of the previous pair, which is
      no longer the midpoint of the two selected places. */
  lemma MidpointGoesStale(s: State, k: Slot, place: Coordinate)
    requires s.BothSet() && place != s.SlotValue(k).value
    ensures Select(FindMidpoint(s), k, place).midpoint == Some(Midpoint(s.location1.value, s.location2.value))
    ensures var r := Select(FindMidpoint(s), k, place);
      r.BothSet() && r.midpoint != Some(Midpoint(r.location1.value, r.location2.value))
  {
  }
}
