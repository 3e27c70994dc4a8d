# MidwayPointMap in Dafny

A verified model of the midpoint screen of the *Central* mobile app
(`MidwayPointMap.js`). The user picks two places in two address search boxes.
The map shows both of them. When the user presses "Find Midpoint", the screen
shows the point halfway between them.

The model has four modules:

- `Options`: the optional value that stands for a `null` state slot.
- `Geometry`: `Coordinate` and `Region` over exact reals. It holds the midpoint
  (`calculateMidpoint`) and the viewport that frames two places
  (`calculateRegion`).
- `MidwayPointMap`: the component state. There are two selection slots, the
  last computed midpoint and the map viewport. The module defines the two user
  events as pure transitions. `Select` is one place selection into one slot. It
  runs the setter, then the handler's region update, then the effect that
  resyncs the region. `FindMidpoint` is the button press.
- `Session`: runs any sequence of events from the initial state. It proves the
  invariants that every reachable state keeps.

The selection handler picks its region branch from the slot values it saw
*before* the selection. It never reads back the slot it just wrote. In the
branches where only one slot was set, it pairs that old slot value with the new
place. The effect corrects the region only when both slots end up set. The
model keeps this behaviour as written. Two lemmas show the consequence. Re-selecting into the only filled slot frames the
replaced place together with the new one
(`ReselectFramesReplacedPlace`). Re-selecting the same place there collapses
the viewport to zero span (`ReselectSamePlaceDegenerates`).

## Model

| member | source | states |
|---|---|---|
| Geometry.Midpoint | MidwayPointMap.js:23-27 | on each axis the result lies halfway between the two places (its offset from the first equals the second's offset from it, sign included) and between them |
| Geometry.MidpointCharacterized | MidwayPointMap.js:23-27 | a coordinate lies halfway between the two places on both axes, in that signed sense, exactly when it is their computed midpoint |
| Geometry.MidpointSymmetric | MidwayPointMap.js:24-25 | swapping the two places gives the same midpoint |
| Geometry.MidpointIdempotent | MidwayPointMap.js:24-25 | the midpoint of a place with itself is that place |
| Geometry.CalculateRegion | MidwayPointMap.js:29-39 | the viewport is centred on the midpoint; each span is twice the absolute difference on its axis and is non-negative; both places lie inside, each halfway between centre and edge |
| Geometry.RegionSymmetric | MidwayPointMap.js:29-38 | swapping the two places gives the same viewport |
| Geometry.RegionDegenerateIff | MidwayPointMap.js:31-32 | a span is zero exactly when the places agree on that axis; the same place twice gives a zero-span viewport, which nothing guards |
| MidwayPointMap.Initial | MidwayPointMap.js:9-17 | the screen starts with empty slots, no midpoint and a viewport with positive spans |
| MidwayPointMap.Store | MidwayPointMap.js:41-46 | the setter puts the resolved place in its own slot and leaves the other slot, the midpoint and the viewport alone |
| MidwayPointMap.HandlerRegion | MidwayPointMap.js:48-54 | the handler's viewport is chosen from the slots before the selection: the old pair, the one old slot with the new place (in slot order), or the unchanged viewport when both were empty |
| MidwayPointMap.SyncRegion | MidwayPointMap.js:66-70 | once both slots are set the viewport frames exactly those two places; otherwise the state is unchanged |
| MidwayPointMap.Select | MidwayPointMap.js:41-70 | a selection fills its slot only, keeps the other slot, leaves the midpoint stale, frames the current pair when both are set, keeps the handler's viewport otherwise, and does not move the map on the very first selection |
| MidwayPointMap.FindMidpoint | MidwayPointMap.js:57-64 | with both slots set the stored midpoint lies halfway between the two places; otherwise the whole state is unchanged; slots and viewport are never touched |
| MidwayPointMap.FindMidpointIdempotent | MidwayPointMap.js:57-64 | pressing the button twice equals pressing it once |
| MidwayPointMap.SelectOrderIndependent | MidwayPointMap.js:66-70 | selecting the same two places into slot 1 then slot 2, or slot 2 then slot 1, gives the same state, a viewport framing the two places, and the same midpoint after the button press |
| MidwayPointMap.ReselectFramesReplacedPlace | MidwayPointMap.js:50-51 | with slot 1 filled and slot 2 empty, a new selection into slot 1 frames the replaced place and the new place |
| MidwayPointMap.ReselectSecondFramesReplacedPlace | MidwayPointMap.js:52-53 | with slot 1 empty and slot 2 filled, a new selection into slot 2 frames the new place and the replaced place |
| MidwayPointMap.ReselectSamePlaceDegenerates | MidwayPointMap.js:48-54 | re-selecting the place already in the only filled slot gives a zero-span viewport |
| MidwayPointMap.MidpointGoesStale | MidwayPointMap.js:41-46 | a selection of a different place into either slot after the button press keeps the old pair's midpoint, which is no longer the midpoint of the two selected places |
| Session.InitialConsistent | MidwayPointMap.js:9-17 | the initial state satisfies the screen invariant |
| Session.StepPreservesConsistent | MidwayPointMap.js:41-70 | every event keeps the invariant: a midpoint only with both slots set, a full pair always framed by the viewport, non-negative spans |
| Session.RunPreservesConsistent | MidwayPointMap.js:41-70 | any sequence of events keeps the invariant |
| Session.ReachableConsistent | MidwayPointMap.js:9-70 | every state reachable from the initial state satisfies the invariant |
| Session.RunSlot | MidwayPointMap.js:41-46 | after any sequence of events a slot holds the place of the last selection into it, or its earlier value if there was none |
| Session.RunThenFind | MidwayPointMap.js:57-64 | after any history with both slots set, the button press stores the midpoint of the two current slots |

## Left out

- Rendering is not modelled: JSX, `MapView`/`Marker`, styles and `Platform`
  checks (MidwayPointMap.js:72-169) are UI and layout only.
- The autocomplete widget is not modelled: `GooglePlacesAutocomplete`, the API
  key, refs and `onFocus`/`setAddressText` (MidwayPointMap.js:6, 20-21, 75-102)
  are foreign widget calls and network geocoding. A selection takes the
  resolved coordinate as its input.
- `details = null` is not modelled. In the source, a selection without place
  details would fail at line 43. The model's selection always has a coordinate.
- `places`/`setPlaces` (MidwayPointMap.js:18, 109-119) are not modelled. The
  list is never filled, so it has no behaviour.
- `console.log` (line 59) and the `toFixed(5)` display (lines 124-125) are not
  modelled. They are output and presentation only.
- Floating-point rounding is not modelled. Coordinates are exact reals, so the
  properties hold exactly. In IEEE-754 doubles the mean and the spans round.
- React's asynchronous state updates and effect scheduling are not modelled.
  Each user event is one atomic transition: setter, handler region update, then
  effect.
