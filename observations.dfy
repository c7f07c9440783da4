/** Observation records, the query that selects them and the timestamp order they are
    returned in (`BaseObservation`, `ObservationRecord`, the filters of
    `_filter_user_observations` and `list_observations`, and `sorted(..., key=timestamp)`). */
module Observations {
  import opened Wrappers
  import Catalog

  const SecondsPerHour: int := 3600
  const DefaultSource: string := "user"

  /** A submitted observation (`BaseObservation`); timestamps are whole seconds. */
  datatype Observation = Observation(
    timestamp: int,
    metric: string,
    value: real,
    latitude: real,
    longitude: real,
    locationName: Option<string>,
    source: Option<string>,
    notes: Option<string>)

  /** A stored observation (`ObservationRecord`). */
  datatype ObservationRecord = ObservationRecord(
    id: string,
    timestamp: int,
    metric: string,
    value: real,
    latitude: real,
    longitude: real,
    locationName: Option<string>,
    source: Option<string>,
    notes: Option<string>,
    submittedAt: int)

  /** A great-circle distance in kilometres between (lat1, lon1) and (lat2, lon2). */
  type Distance = (real, real, real, real) -> real

  /** What the field validators of `BaseObservation` admit. */
  predicate Admissible(obs: Observation)
  {
    && obs.metric in Catalog.MetricKeys
    && -90.0 <= obs.latitude <= 90.0
    && -180.0 <= obs.longitude <= 180.0
    && (obs.locationName.Some? ==> |obs.locationName.value| <= 120)
    && (obs.source.Some? ==> |obs.source.value| <= 80)
    && (obs.notes.Some? ==> |obs.notes.value| <= 240)
  }

  /** The observation a record was made from, with the record's source. */
  function BaseOf(r: ObservationRecord): Observation
  {
    Observation(r.timestamp, r.metric, r.value, r.latitude, r.longitude,
                r.locationName, r.source, r.notes)
  }

  /** The record `add_observation` stores: every field of the submission copied, a fresh id
      and submission time, and the source defaulted to "user" when it is missing or empty. */
  function NewRecord(obs: Observation, id: string, submittedAt: int): (r: ObservationRecord)
    ensures r.id == id && r.submittedAt == submittedAt
    ensures BaseOf(r).(source := obs.source) == obs
    ensures Truthy(r.source)
    ensures BaseOf(r) == obs <==> Truthy(obs.source)
    ensures !Truthy(obs.source) ==> r.source == Some(DefaultSource)
  {
    ObservationRecord(id, obs.timestamp, obs.metric, obs.value, obs.latitude, obs.longitude,
                      obs.locationName, if Truthy(obs.source) then obs.source else Some(DefaultSource),
                      obs.notes, submittedAt)
  }

  /** The centre and radius of a distance filter. */
  datatype Area = Area(latitude: real, longitude: real, radiusKm: real)

  /** A selection over stored observations: an optional metric (ignored when falsy),
      the earliest admitted timestamp and an optional distance filter. */
  datatype Query = Query(metric: Option<string>, cutoff: int, area: Option<Area>)

  /** `now - timedelta(hours=hours)` in seconds. */
  function Cutoff(now: int, hours: int): int
  {
    now - hours * SecondsPerHour
  }

  /** A record survives the loop's three `continue` tests. */
  predicate Matches(o: ObservationRecord, q: Query, dist: Distance)
  {
    && (!Truthy(q.metric) || o.metric == q.metric.value)
    && o.timestamp >= q.cutoff
    && (q.area.None? || dist(q.area.value.latitude, q.area.value.longitude, o.latitude, o.longitude) <= q.area.value.radiusKm)
  }

  /** The records of `s` that match `q`, in their order in `s`. */
  function Select(s: seq<ObservationRecord>, q: Query, dist: Distance): (r: seq<ObservationRecord>)
    ensures |r| <= |s|
  {
    if |s| == 0 then []
    else (if Matches(s[0], q, dist) then [s[0]] else []) + Select(s[1..], q, dist)
  }

  /** The selection holds exactly the records of `s` that match. */
  lemma {:induction false} SelectMembers(s: seq<ObservationRecord>, q: Query, dist: Distance, o: ObservationRecord)
    ensures o in Select(s, q, dist) <==> o in s && Matches(o, q, dist)
  {
    if |s| > 0 {
      SelectMembers(s[1..], q, dist, o);
      assert s == [s[0]] + s[1..];
    }
  }

  /** Appending one record extends the selection by that record exactly when it matches;
      this is the step of the filtering loops. */
  lemma {:induction false} SelectSnoc(s: seq<ObservationRecord>, x: ObservationRecord, q: Query, dist: Distance)
    ensures Select(s + [x], q, dist) == Select(s, q, dist) + (if Matches(x, q, dist) then [x] else [])
  {
    if |s| == 0 {
      assert s + [x] == [x];
    } else {
      assert (s + [x])[0] == s[0];
      assert (s + [x])[1..] == s[1..] + [x];
      SelectSnoc(s[1..], x, q, dist);
    }
  }

  /** Filtering twice is filtering once by the conjunction of the two queries. */
  lemma {:induction false} SelectTwice(s: seq<ObservationRecord>, q1: Query, q2: Query, q: Query, dist: Distance)
    requires forall o :: Matches(o, q, dist) <==> Matches(o, q1, dist) && Matches(o, q2, dist)
    ensures Select(Select(s, q1, dist), q2, dist) == Select(s, q, dist)
  {
    if |s| > 0 {
      SelectTwice(s[1..], q1, q2, q, dist);
      var rest := Select(s[1..], q1, dist);
      if Matches(s[0], q1, dist) {
        assert Select(s, q1, dist) == [s[0]] + rest;
        assert ([s[0]] + rest)[0] == s[0] && ([s[0]] + rest)[1..] == rest;
      } else {
        assert Select(s, q1, dist) == rest;
      }
    }
  }

  /** The later of two cutoffs. */
  function Later(c1: int, c2: int): (c: int)
    ensures c >= c1 && c >= c2 && (c == c1 || c == c2)
  {
    if c1 <= c2 then c2 else c1
  }

  /** Two queries that differ only in the cutoff select, together, what the later cutoff selects. */
  lemma LaterCutoffWins(q1: Query, q2: Query, dist: Distance)
    requires q1.metric == q2.metric && q1.area == q2.area
    ensures forall o :: Matches(o, q2.(cutoff := Later(q1.cutoff, q2.cutoff)), dist)
                        <==> Matches(o, q1, dist) && Matches(o, q2, dist)
  {
  }

  // ---------------------------------------------------------------------------------
  // Ordering by timestamp: `sorted(items, key=lambda item: item.timestamp)`, which is stable.

  /** Each record is no later than the next one. */
  predicate Sorted(s: seq<ObservationRecord>)
  {
    |s| <= 1 || (s[0].timestamp <= s[1].timestamp && Sorted(s[1..]))
  }

  /** The first record of a sorted sequence is no later than any of its records. */
  lemma {:induction false} SortedHeadLeast(s: seq<ObservationRecord>, o: ObservationRecord)
    requires Sorted(s) && o in s
    ensures s[0].timestamp <= o.timestamp
  {
    if o != s[0] {
      assert o in s[1..] by { assert s == [s[0]] + s[1..]; }
      SortedHeadLeast(s[1..], o);
    }
  }

  /** Sorted means that every earlier record is no later than every later one. */
  lemma {:induction false} SortedPairwise(s: seq<ObservationRecord>, i: int, j: int)
    requires Sorted(s) && 0 <= i < j < |s|
    ensures s[i].timestamp <= s[j].timestamp
  {
    if i == 0 {
      SortedHeadLeast(s, s[j]);
    } else {
      SortedPairwise(s[1..], i - 1, j - 1);
    }
  }

  /** Puts `x` in front of the first record that is not earlier than it. */
  function Insert(x: ObservationRecord, s: seq<ObservationRecord>): (r: seq<ObservationRecord>)
    requires Sorted(s)
    ensures Sorted(r)
    ensures |r| == |s| + 1
    ensures r[0] == if |s| == 0 || x.timestamp <= s[0].timestamp then x else s[0]
  {
    if |s| == 0 then [x]
    else if x.timestamp <= s[0].timestamp then [x] + s
    else
      var t := Insert(x, s[1..]);
      assert ([s[0]] + t)[1..] == t;
      [s[0]] + t
  }

  lemma {:induction false} InsertMultiset(x: ObservationRecord, s: seq<ObservationRecord>)
    requires Sorted(s)
    ensures multiset(Insert(x, s)) == multiset(s) + multiset{x}
  {
    if |s| > 0 && x.timestamp > s[0].timestamp {
      InsertMultiset(x, s[1..]);
      assert s == [s[0]] + s[1..];
    }
  }

  /** The stable sort by timestamp. */
  function SortByTime(s: seq<ObservationRecord>): (r: seq<ObservationRecord>)
    ensures Sorted(r)
    ensures |r| == |s|
  {
    if |s| == 0 then [] else Insert(s[0], SortByTime(s[1..]))
  }

  /** Sorting only reorders: the result is a permutation of the input. */
  lemma {:induction false} SortByTimePermutes(s: seq<ObservationRecord>)
    ensures multiset(SortByTime(s)) == multiset(s)
  {
    if |s| > 0 {
      SortByTimePermutes(s[1..]);
      InsertMultiset(s[0], SortByTime(s[1..]));
      assert s == [s[0]] + s[1..];
    }
  }

  /** The sorted selection holds exactly the records of `s` that match. */
  lemma SortedSelectionMembers(s: seq<ObservationRecord>, q: Query, dist: Distance, o: ObservationRecord)
    ensures o in SortByTime(Select(s, q, dist)) <==> o in s && Matches(o, q, dist)
  {
    var sel := Select(s, q, dist);
    SortByTimePermutes(sel);
    SelectMembers(s, q, dist, o);
    assert o in SortByTime(sel) <==> o in multiset(SortByTime(sel));
    assert o in sel <==> o in multiset(sel);
  }

  /** The records of `s` carrying timestamp `t`, in their order in `s`. */
  function AtTime(s: seq<ObservationRecord>, t: int): seq<ObservationRecord>
  {
    if |s| == 0 then []
    else (if s[0].timestamp == t then [s[0]] else []) + AtTime(s[1..], t)
  }

  lemma AtTimeCons(y: ObservationRecord, u: seq<ObservationRecord>, t: int)
    ensures AtTime([y] + u, t) == (if y.timestamp == t then [y] else []) + AtTime(u, t)
  {
    assert ([y] + u)[0] == y && ([y] + u)[1..] == u;
  }

  lemma {:induction false} InsertAtTime(x: ObservationRecord, s: seq<ObservationRecord>, t: int)
    requires Sorted(s)
    ensures AtTime(Insert(x, s), t) == (if x.timestamp == t then [x] else []) + AtTime(s, t)
  {
    if |s| == 0 {
      AtTimeCons(x, [], t);
    } else if x.timestamp <= s[0].timestamp {
      AtTimeCons(x, s, t);
    } else {
      var tail := Insert(x, s[1..]);
      InsertAtTime(x, s[1..], t);
      AtTimeCons(s[0], tail, t);
      assert AtTime(s, t) == (if s[0].timestamp == t then [s[0]] else []) + AtTime(s[1..], t);
      if x.timestamp == t {
        assert AtTime(s, t) == AtTime(s[1..], t);
      }
    }
  }

  /** Sorting keeps records with equal timestamps in their original relative order. */
  lemma {:induction false} SortByTimeStable(s: seq<ObservationRecord>, t: int)
    ensures AtTime(SortByTime(s), t) == AtTime(s, t)
  {
    if |s| > 0 {
      SortByTimeStable(s[1..], t);
      InsertAtTime(s[0], SortByTime(s[1..]), t);
    }
  }

  /** A sequence already in timestamp order is left as it is. */
  lemma {:induction false} SortByTimeOfSorted(s: seq<ObservationRecord>)
    requires Sorted(s)
    ensures SortByTime(s) == s
  {
    if |s| > 0 {
      assert Sorted(s[1..]);
      SortByTimeOfSorted(s[1..]);
      if |s| > 1 {
        assert s[0].timestamp <= s[1..][0].timestamp;
      }
      assert [s[0]] + s[1..] == s;
    }
  }

  /** Selecting from a sorted sequence keeps it sorted. */
  lemma {:induction false} SelectSorted(s: seq<ObservationRecord>, q: Query, dist: Distance)
    requires Sorted(s)
    ensures Sorted(Select(s, q, dist))
  {
    if |s| > 0 {
      SelectSorted(s[1..], q, dist);
      var rest := Select(s[1..], q, dist);
      if Matches(s[0], q, dist) && |rest| > 0 {
        SelectMembers(s[1..], q, dist, rest[0]);
        assert rest[0] in s by { assert s == [s[0]] + s[1..]; }
        SortedHeadLeast(s, rest[0]);
        var sel := [s[0]] + rest;
        assert Select(s, q, dist) == sel;
        assert sel[1..] == rest && sel[1] == rest[0];
      } else if Matches(s[0], q, dist) {
        assert Select(s, q, dist) == [s[0]];
      } else {
        assert Select(s, q, dist) == rest;
      }
    }
  }

  lemma SelectCons(y: ObservationRecord, u: seq<ObservationRecord>, q: Query, dist: Distance)
    ensures Select([y] + u, q, dist) == (if Matches(y, q, dist) then [y] else []) + Select(u, q, dist)
  {
    assert ([y] + u)[0] == y && ([y] + u)[1..] == u;
  }

  /** A record no later than the head of a sorted sequence goes in front of its selection too. */
  lemma SelectInsertFront(x: ObservationRecord, s: seq<ObservationRecord>, q: Query, dist: Distance)
    requires Sorted(s) && Sorted(Select(s, q, dist))
    requires |s| == 0 || x.timestamp <= s[0].timestamp
    ensures Insert(x, Select(s, q, dist)) == [x] + Select(s, q, dist)
  {
    var sel := Select(s, q, dist);
    if |sel| > 0 {
      SelectMembers(s, q, dist, sel[0]);
      SortedHeadLeast(s, sel[0]);
    }
  }

  lemma {:induction false} SelectInsert(x: ObservationRecord, s: seq<ObservationRecord>, q: Query, dist: Distance)
    requires Sorted(s)
    ensures Sorted(Select(s, q, dist))
    ensures Select(Insert(x, s), q, dist)
            == if Matches(x, q, dist) then Insert(x, Select(s, q, dist)) else Select(s, q, dist)
  {
    SelectSorted(s, q, dist);
    if |s| == 0 || x.timestamp <= s[0].timestamp {
      assert Insert(x, s) == [x] + s;
      SelectCons(x, s, q, dist);
      SelectInsertFront(x, s, q, dist);
    } else {
      var tail := Insert(x, s[1..]);
      assert Insert(x, s) == [s[0]] + tail;
      SelectInsert(x, s[1..], q, dist);
      SelectCons(s[0], tail, q, dist);
      var rest := Select(s[1..], q, dist);
      var sel := Select(s, q, dist);
      assert s == [s[0]] + s[1..];
      SelectCons(s[0], s[1..], q, dist);
      if Matches(s[0], q, dist) {
        assert sel == [s[0]] + rest;
        if Matches(x, q, dist) {
          assert sel[0] == s[0] && sel[1..] == rest;
          assert Insert(x, sel) == [s[0]] + Insert(x, rest);
        }
      } else {
        assert sel == rest;
      }
    }
  }

  /** Sorting then selecting is selecting then sorting: the order in which
      `list_observations` sorts and filters does not change its answer. */
  lemma {:induction false} SelectSortByTime(s: seq<ObservationRecord>, q: Query, dist: Distance)
    ensures Select(SortByTime(s), q, dist) == SortByTime(Select(s, q, dist))
  {
    if |s| > 0 {
      var t := SortByTime(s[1..]);
      assert SortByTime(s) == Insert(s[0], t);
      SelectSortByTime(s[1..], q, dist);
      SelectInsert(s[0], t, q, dist);
      var rest := Select(s[1..], q, dist);
      if Matches(s[0], q, dist) {
        var sel := [s[0]] + rest;
        assert Select(s, q, dist) == sel;
        assert sel[0] == s[0] && sel[1..] == rest;
        assert SortByTime(sel) == Insert(s[0], SortByTime(rest));
      } else {
        assert Select(s, q, dist) == rest;
      }
    }
  }
}
