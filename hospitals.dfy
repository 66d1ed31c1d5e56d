/**
  The hospital screen of the InstantDoc app: the hospitals near the user and
  the nearest of them. The great-circle distance is a parameter, so only the
  selection is modelled, not the haversine arithmetic.
 */
module Hospitals {
  import opened Js

  datatype Coord = Coord(lat: real, lng: real)

  /** A result of the places search: its name, its position and its address. */
  datatype Hospital = Hospital(name: string, location: Coord, vicinity: string)

  /**
    `k` is the first index of a hospital at the least distance from `user`:
    no hospital is nearer, and every one before it is strictly farther.
   */
  ghost predicate IsFirstNearest(user: Coord, hospitals: seq<Hospital>, distance: (Coord, Coord) -> real, k: int)
  {
    && 0 <= k < |hospitals|
    && (forall j | 0 <= j < |hospitals| :: distance(user, hospitals[k].location) <= distance(user, hospitals[j].location))
    && (forall j | 0 <= j < k :: distance(user, hospitals[k].location) < distance(user, hospitals[j].location))
  }

  /** The first nearest hospital is determined by the list: at most one index qualifies. */
  lemma FirstNearestUnique(user: Coord, hospitals: seq<Hospital>, distance: (Coord, Coord) -> real, k1: int, k2: int)
    requires IsFirstNearest(user, hospitals, distance, k1)
    requires IsFirstNearest(user, hospitals, distance, k2)
    ensures k1 == k2
  {
    var d1 := distance(user, hospitals[k1].location);
    var d2 := distance(user, hospitals[k2].location);
    assert d1 <= d2 && d2 <= d1;
  }

  /** Three candidates at 3.2, 1.1 and 5.0 km: the one at 1.1 km, and no other, is selected. */
  lemma SelectsNearestOfThree(user: Coord, hospitals: seq<Hospital>, distance: (Coord, Coord) -> real, k: int)
    requires |hospitals| == 3
    requires distance(user, hospitals[0].location) == 3.2
    requires distance(user, hospitals[1].location) == 1.1
    requires distance(user, hospitals[2].location) == 5.0
    ensures IsFirstNearest(user, hospitals, distance, k) <==> k == 1
  {
  }

  /**
    `findNearestHospital`: one pass over the list keeping the hospital with
    the least distance so far, replaced only by a strictly smaller distance.
    None stands for the initial `null` and `Infinity`.
   */
  method FindNearestHospital(user: Coord, hospitals: seq<Hospital>, distance: (Coord, Coord) -> real)
    returns (closest: Option<Hospital>, minDistance: Option<real>)
    ensures closest.None? <==> |hospitals| == 0
    ensures minDistance.None? <==> |hospitals| == 0
    ensures |hospitals| > 0 ==>
              exists k | 0 <= k < |hospitals| ::
                && IsFirstNearest(user, hospitals, distance, k)
                && closest == Some(hospitals[k])
                && minDistance == Some(distance(user, hospitals[k].location))
  {
    closest := None;
    minDistance := None;
    ghost var best := 0;
    for i := 0 to |hospitals|
      invariant closest.None? <==> i == 0
      invariant minDistance.None? <==> i == 0
      invariant i > 0 ==>
                  && best < i
                  && closest == Some(hospitals[best])
                  && minDistance == Some(distance(user, hospitals[best].location))
                  && (forall j | 0 <= j < i :: distance(user, hospitals[best].location) <= distance(user, hospitals[j].location))
                  && (forall j | 0 <= j < best :: distance(user, hospitals[best].location) < distance(user, hospitals[j].location))
    {
      var dist := distance(user, hospitals[i].location);
      if minDistance.None? || dist < minDistance.value {
        minDistance := Some(dist);
        closest := Some(hospitals[i]);
        best := i;
      }
    }
    if |hospitals| > 0 {
      assert IsFirstNearest(user, hospitals, distance, best);
    }
  }

  class HospitalScreen {
    var location: Option<Coord>
    var hospitals: seq<Hospital>
    var loading: bool
    var nearest: Option<Hospital>
    /** The distance shown; its two-decimal formatting is not modelled. */
    var distance: Option<real>

    constructor ()
      ensures location == None && hospitals == [] && loading
      ensures nearest == None && distance == None
    {
      location := None;
      hospitals := [];
      loading := true;
      nearest := None;
      distance := None;
    }

    /**
      `fetchHospitals`: `reply` is the result list of the places search, or
      None when the request failed. The selection runs only on a non-empty
      list, and `loading` is cleared on every path.
     */
    method FetchHospitals(user: Coord, reply: Option<seq<Hospital>>, measure: (Coord, Coord) -> real)
      modifies this`hospitals, this`loading, this`nearest, this`distance
      ensures !loading
      ensures hospitals == if reply.Some? then reply.value else old(hospitals)
      ensures reply.None? || reply.value == [] ==> nearest == old(nearest) && distance == old(distance)
      ensures reply.Some? && reply.value != [] ==>
                exists k | 0 <= k < |reply.value| ::
                  && IsFirstNearest(user, reply.value, measure, k)
                  && nearest == Some(reply.value[k])
                  && distance == Some(measure(user, reply.value[k].location))
    {
      if reply.Some? {
        hospitals := reply.value;
        if |reply.value| > 0 {
          nearest, distance := FindNearestHospital(user, reply.value, measure);
        }
      }
      loading := false;
    }

    /**
      The mount effect: without location permission it stops at once, leaving
      `loading` as it was; otherwise it records the position and fetches.
     */
    method Mount(granted: bool, position: Coord, reply: Option<seq<Hospital>>, measure: (Coord, Coord) -> real)
      modifies this
      ensures !granted ==>
                && location == old(location) && hospitals == old(hospitals) && loading == old(loading)
                && nearest == old(nearest) && distance == old(distance)
      ensures granted ==>
                && location == Some(position) && !loading
                && hospitals == (if reply.Some? then reply.value else old(hospitals))
                && (reply.None? || reply.value == [] ==> nearest == old(nearest) && distance == old(distance))
                && (reply.Some? && reply.value != [] ==>
                      exists k | 0 <= k < |reply.value| ::
                        && IsFirstNearest(position, reply.value, measure, k)
                        && nearest == Some(reply.value[k])
                        && distance == Some(measure(position, reply.value[k].location)))
    {
      if !granted {
        return;
      }
      location := Some(position);
      FetchHospitals(position, reply, measure);
    }
  }
}
