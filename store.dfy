/** The in-memory observation store (`USER_OBSERVATIONS`) and the three operations on it:
    `add_observation`, `_filter_user_observations` and `list_observations`. */
module Store {
  import opened Wrappers
  import opened Observations

  /** The module-level list of stored observations, in insertion order. */
  class ObservationStore {
    var records: seq<ObservationRecord>

    /** Every stored record passed validation, carries a non-empty source, and ids are unique. */
    ghost predicate Valid()
      reads this
    {
      && (forall i :: 0 <= i < |records| ==> Admissible(BaseOf(records[i])) && Truthy(records[i].source))
      && (forall i, j :: 0 <= i < j < |records| ==> records[i].id != records[j].id)
    }

    /** The ids already handed out. */
    function Ids(): set<string>
      reads this
    {
      set r | r in records :: r.id
    }

    constructor ()
      ensures Valid() && records == []
    {
      records := [];
    }

    /** `add_observation`: builds the record and appends it; `id` is the fresh identifier
        and `submittedAt` the clock reading. */
    method Add(obs: Observation, id: string, submittedAt: int) returns (record: ObservationRecord)
      requires Valid() && Admissible(obs) && id !in Ids()
      modifies this
      ensures Valid()
      ensures record == NewRecord(obs, id, submittedAt)
      ensures records == old(records) + [record]
      ensures Ids() == old(Ids()) + {id}
    {
      record := NewRecord(obs, id, submittedAt);
      assert Admissible(BaseOf(record)) by {
        assert BaseOf(record).(source := obs.source) == obs;
      }
      forall i | 0 <= i < |records| ensures records[i].id != id {
        assert records[i] in records;
      }
      records := records + [record];
    }

    /** `_filter_user_observations`: the stored records of the metric (when one is given),
        no older than `hours` before `now`, and within `radiusKm` of the point, by timestamp. */
    method Filter(latitude: real, longitude: real, metric: Option<string>, hours: int,
                  radiusKm: real, now: int, dist: Distance)
      returns (matches: seq<ObservationRecord>)
      ensures matches == SortByTime(Select(records, Query(metric, Cutoff(now, hours), Some(Area(latitude, longitude, radiusKm))), dist))
      ensures Sorted(matches)
    {
      var q := Query(metric, Cutoff(now, hours), Some(Area(latitude, longitude, radiusKm)));
      var cutoff := Cutoff(now, hours);
      var found: seq<ObservationRecord> := [];
      for i := 0 to |records|
        invariant found == Select(records[..i], q, dist)
      {
        var obs := records[i];
        assert records[..i + 1] == records[..i] + [obs];
        SelectSnoc(records[..i], obs, q, dist);
        if Truthy(metric) && obs.metric != metric.value {
          continue;
        }
        if obs.timestamp < cutoff {
          continue;
        }
        if dist(latitude, longitude, obs.latitude, obs.longitude) > radiusKm {
          continue;
        }
        found := found + [obs];
      }
      assert records[..|records|] == records;
      matches := SortByTime(found);
    }

    /** `list_observations`. Without both coordinates it filters the whole store by metric and
        age; with them it first calls `Filter` (which reads the clock as `filterNow`) and then
        filters that again by metric, age (clock read as `listNow`) and distance. Either way the
        answer is the matching stored records in timestamp order. */
    method List(metric: Option<string>, latitude: Option<real>, longitude: Option<real>,
                radiusKm: real, hours: int, filterNow: int, listNow: int, dist: Distance)
      returns (result: seq<ObservationRecord>)
      requires latitude.Some? ==> -90.0 <= latitude.value <= 90.0
      requires longitude.Some? ==> -180.0 <= longitude.value <= 180.0
      requires 0.1 <= radiusKm <= 500.0 && 1 <= hours <= 240
      ensures latitude.None? || longitude.None? ==>
        result == SortByTime(Select(records, Query(metric, Cutoff(listNow, hours), None), dist))
      ensures latitude.Some? && longitude.Some? ==>
        result == SortByTime(Select(records, Query(metric, Later(Cutoff(filterNow, hours), Cutoff(listNow, hours)),
                                                   Some(Area(latitude.value, longitude.value, radiusKm))), dist))
      ensures Sorted(result)
    {
      var near := latitude.Some? && longitude.Some?;
      var data: seq<ObservationRecord>;
      if !near {
        data := records;
      } else {
        data := Filter(latitude.value, longitude.value, metric, hours, radiusKm, filterNow, dist);
      }
      var cutoff := Cutoff(listNow, hours);
      var area: Option<Area> := None;
      if near {
        area := Some(Area(latitude.value, longitude.value, radiusKm));
      }
      var q := Query(metric, cutoff, area);
      var filtered: seq<ObservationRecord> := [];
      for i := 0 to |data|
        invariant filtered == Select(data[..i], q, dist)
      {
        var obs := data[i];
        assert data[..i + 1] == data[..i] + [obs];
        SelectSnoc(data[..i], obs, q, dist);
        assert Matches(obs, q, dist) <==>
          && (!Truthy(metric) || obs.metric == metric.value)
          && obs.timestamp >= cutoff
          && (near ==> dist(latitude.value, longitude.value, obs.latitude, obs.longitude) <= radiusKm);
        if Truthy(metric) && obs.metric != metric.value {
          continue;
        }
        if obs.timestamp < cutoff {
          continue;
        }
        if near {
          if dist(latitude.value, longitude.value, obs.latitude, obs.longitude) > radiusKm {
            continue;
          }
        }
        filtered := filtered + [obs];
      }
      assert data[..|data|] == data;
      result := SortByTime(filtered);
      if near {
        RefilterSorted(records, Query(metric, Cutoff(filterNow, hours), q.area), q, dist);
      }
    }
  }

  /** Filtering the sorted answer of a first query again by a second query that differs only
      in its cutoff, and sorting once more, gives the sorted records that pass the later cutoff. */
  lemma RefilterSorted(s: seq<ObservationRecord>, q1: Query, q2: Query, dist: Distance)
    requires q1.metric == q2.metric && q1.area == q2.area
    ensures SortByTime(Select(SortByTime(Select(s, q1, dist)), q2, dist))
            == SortByTime(Select(s, q2.(cutoff := Later(q1.cutoff, q2.cutoff)), dist))
  {
    var both := q2.(cutoff := Later(q1.cutoff, q2.cutoff));
    SelectSortByTime(Select(s, q1, dist), q2, dist);
    LaterCutoffWins(q1, q2, dist);
    SelectTwice(s, q1, q2, both, dist);
    SortByTimeOfSorted(SortByTime(Select(s, both, dist)));
  }
}
