/** The event bookkeeping of the event-recording solver: which events each
    kept cost vector was built from, per (parasite edge, host edge, event,
    cost) and per (parasite edge, host edge, cost), the rejection of new
    vectors that a candidate list already dominates, and the optional
    per-cost intersection of event sets. Dictionaries with a default value
    are maps read through `Get`, which answers the empty set for a missing
    key. */
module Provenance {
  import opened CostVectors
  import opened Trees

  /** The event names the solver writes: the three kinds `merge` is called
      with, the switch label it substitutes once a switch vector is kept,
      and the loss label of `lossmerge`. */
  datatype EventType =
    | CospeciationEvent
    | DuplicationEvent
    | SwitchEvent
    | SwitchTo(target: EdgeId)
    | LossAt(child: EdgeId)

  /** A key (ep, eh, eventType, c, d, s, l) of the event table. */
  datatype Event = Event(ep: EdgeId, eh: EdgeId, eventType: EventType, cost: Cost)

  /** A key (ep, eh, c, d, s, l) of the all-events table. */
  datatype Solution = Solution(ep: EdgeId, eh: EdgeId, cost: Cost)

  /** The four tables: events per event key, events per solution key, the
      costs seen so far and the events common to every sighting of a cost. */
  datatype Record = Record(
    events: map<Event, set<Event>>,
    allEvents: map<Solution, set<Event>>,
    seen: set<Cost>,
    common: map<Cost, set<Event>>)

  const EmptyRecord := Record(map[], map[], {}, map[])

  /** The solution an event belongs to. */
  function SolutionOf(e: Event): Solution
  {
    Solution(e.ep, e.eh, e.cost)
  }

  /** A default-dictionary read. */
  function Get<K(==)>(m: map<K, set<Event>>, k: K): (s: set<Event>)
    ensures k in m ==> s == m[k]
    ensures k !in m ==> s == {}
  {
    if k in m then m[k] else {}
  }

  /** The union of the all-events sets of the given solutions. */
  function SourceEvents(allEvents: map<Solution, set<Event>>, sources: seq<Solution>): set<Event>
  {
    if sources == [] then {}
    else SourceEvents(allEvents, sources[..|sources| - 1]) + Get(allEvents, sources[|sources| - 1])
  }

  /** The vector added for an event type: cospeciation and duplication have
      their own, every other name falls to the switch vector. */
  function EventUnit(eventType: EventType): CostVector
  {
    match eventType
    case CospeciationEvent => CospeciationUnit
    case DuplicationEvent => DuplicationUnit
    case _ => SwitchUnit
  }

  /** The name recorded for a kept vector of `merge`: a switch is renamed
      after the edge it lands on. */
  function Relabelled(eventType: EventType, ehChild2: EdgeId): EventType
  {
    if eventType == SwitchEvent then SwitchTo(ehChild2) else eventType
  }

  /** Some candidate strictly dominates v. */
  predicate Rejected(candidates: seq<CostVector>, v: CostVector)
  {
    exists i :: 0 <= i < |candidates| && Dominates(candidates[i].cost, v.cost)
  }

  /** The vectors of `list` that no candidate dominates, in order. */
  function Survivors(candidates: seq<CostVector>, list: seq<CostVector>): seq<CostVector>
  {
    if list == [] then []
    else
      var v := list[|list| - 1];
      Survivors(candidates, list[..|list| - 1]) + (if Rejected(candidates, v) then [] else [v])
  }

  /** One kept vector recorded: its event set is its previous set, itself
      and the all-events sets of its sources; that set is added to the
      all-events set of its solution; in intersection mode the first
      sighting of its cost stores the set and later sightings intersect
      with it. */
  function Recorded(p: Record, intersection: bool, nswe: Event, sources: seq<Solution>): Record
  {
    var eventSet := Get(p.events, nswe) + {nswe} + SourceEvents(p.allEvents, sources);
    var ns := SolutionOf(nswe);
    var events := p.events[nswe := eventSet];
    var allEvents := p.allEvents[ns := Get(p.allEvents, ns) + eventSet];
    var key := nswe.cost;
    if !intersection then Record(events, allEvents, p.seen, p.common)
    else if key in p.seen then Record(events, allEvents, p.seen, p.common[key := Get(p.common, key) * eventSet])
    else Record(events, allEvents, p.seen + {key}, p.common[key := eventSet])
  }

  /** Where a `merge` happens: the parent pair and the two child pairs. */
  datatype MergeSite = MergeSite(ep: EdgeId, eh: EdgeId, epChild1: EdgeId, ehChild1: EdgeId, epChild2: EdgeId, ehChild2: EdgeId)

  /** The records `merge` makes for the row of v: one per w of `list2`
      whose vector unit + v + w no candidate rejects. */
  function RowRecorded(p: Record, intersection: bool, candidates: seq<CostVector>, site: MergeSite,
                       eventType: EventType, v: CostVector, list2: seq<CostVector>): Record
  {
    if list2 == [] then p
    else
      var q := RowRecorded(p, intersection, candidates, site, eventType, v, list2[..|list2| - 1]);
      var w := list2[|list2| - 1];
      var newCV := Add(Add(EventUnit(eventType), v), w);
      if Rejected(candidates, newCV) then q
      else
        Recorded(q, intersection, Event(site.ep, site.eh, Relabelled(eventType, site.ehChild2), newCV.cost),
                 [Solution(site.epChild1, site.ehChild1, v.cost), Solution(site.epChild2, site.ehChild2, w.cost)])
  }

  /** The records of a whole `merge`, row by row. */
  function MergeRecorded(p: Record, intersection: bool, candidates: seq<CostVector>, site: MergeSite,
                         eventType: EventType, list1: seq<CostVector>, list2: seq<CostVector>): Record
  {
    if list1 == [] then p
    else
      var q := MergeRecorded(p, intersection, candidates, site, eventType, list1[..|list1| - 1], list2);
      RowRecorded(q, intersection, candidates, site, eventType, list1[|list1| - 1], list2)
  }

  /** The records of a `lossmerge` of `list` from ehChild up to eh. */
  function LossRecorded(p: Record, intersection: bool, candidates: seq<CostVector>,
                        ep: EdgeId, eh: EdgeId, ehChild: EdgeId, list: seq<CostVector>): Record
  {
    if list == [] then p
    else
      var q := LossRecorded(p, intersection, candidates, ep, eh, ehChild, list[..|list| - 1]);
      var v := list[|list| - 1];
      var newCV := Add(LossUnit, v);
      if Rejected(candidates, newCV) then q
      else Recorded(q, intersection, Event(ep, eh, LossAt(ehChild), newCV.cost), [Solution(ep, ehChild, v.cost)])
  }

  /** What every record keeps: each event's set holds the event itself and
      is part of the all-events set of its solution, and the seen costs are
      exactly those with a common-events entry. */
  ghost predicate WellFormed(p: Record)
  {
    && (forall e :: e in p.events ==> e in p.events[e] && p.events[e] <= Get(p.allEvents, SolutionOf(e)))
    && p.seen == p.common.Keys
  }

  /** q extends p: no all-events set lost an event, every seen cost stays
      seen and its common set did not grow; out of intersection mode the
      common sets are untouched. */
  ghost predicate Grew(p: Record, q: Record, intersection: bool)
  {
    && (forall s :: Get(p.allEvents, s) <= Get(q.allEvents, s))
    && (forall k :: k in p.seen ==> k in q.seen && Get(q.common, k) <= Get(p.common, k))
    && (!intersection ==> q.seen == p.seen && q.common == p.common)
  }

  lemma GrewReflexive(p: Record, intersection: bool)
    ensures Grew(p, p, intersection)
  {
  }

  lemma GrewTransitive(p: Record, q: Record, s: Record, intersection: bool)
    requires Grew(p, q, intersection) && Grew(q, s, intersection)
    ensures Grew(p, s, intersection)
  {
  }

  lemma SourceEventsCovers(allEvents: map<Solution, set<Event>>, sources: seq<Solution>, i: nat)
    requires i < |sources|
    ensures Get(allEvents, sources[i]) <= SourceEvents(allEvents, sources)
  {
    if i < |sources| - 1 {
      SourceEventsCovers(allEvents, sources[..|sources| - 1], i);
    }
  }

  /** One record: the new event set holds the event and the all-events sets
      of every source, and the all-events set of its solution takes it in;
      in intersection mode the common set of the cost becomes the new event
      set at the first sighting and shrinks by intersection afterwards. */
  lemma RecordedProvenance(p: Record, intersection: bool, nswe: Event, sources: seq<Solution>)
    ensures var q := Recorded(p, intersection, nswe, sources);
      && nswe in q.events && nswe in q.events[nswe]
      && (forall i :: 0 <= i < |sources| ==> Get(p.allEvents, sources[i]) <= q.events[nswe])
      && q.events[nswe] <= Get(q.allEvents, SolutionOf(nswe))
      && (intersection && nswe.cost !in p.seen ==> q.common[nswe.cost] == q.events[nswe])
      && (intersection && nswe.cost in p.seen ==> q.common[nswe.cost] == Get(p.common, nswe.cost) * q.events[nswe])
  {
    forall i | 0 <= i < |sources|
      ensures Get(p.allEvents, sources[i]) <= Recorded(p, intersection, nswe, sources).events[nswe]
    {
      SourceEventsCovers(p.allEvents, sources, i);
    }
  }

  lemma RecordedGrew(p: Record, intersection: bool, nswe: Event, sources: seq<Solution>)
    ensures Grew(p, Recorded(p, intersection, nswe, sources), intersection)
  {
  }

  lemma RecordedWellFormed(p: Record, intersection: bool, nswe: Event, sources: seq<Solution>)
    requires WellFormed(p)
    ensures WellFormed(Recorded(p, intersection, nswe, sources))
  {
    var q := Recorded(p, intersection, nswe, sources);
    forall e | e in q.events
      ensures e in q.events[e] && q.events[e] <= Get(q.allEvents, SolutionOf(e))
    {
      if e != nswe {
        assert q.events[e] == p.events[e];
      }
    }
  }

  /** A record step that keeps the table well formed and only grows it. */
  ghost predicate Extends(p: Record, q: Record, intersection: bool)
  {
    (WellFormed(p) ==> WellFormed(q)) && Grew(p, q, intersection)
  }

  lemma RecordedExtends(p: Record, intersection: bool, nswe: Event, sources: seq<Solution>)
    ensures Extends(p, Recorded(p, intersection, nswe, sources), intersection)
  {
    RecordedGrew(p, intersection, nswe, sources);
    if WellFormed(p) {
      RecordedWellFormed(p, intersection, nswe, sources);
    }
  }

  lemma ExtendsTransitive(p: Record, q: Record, s: Record, intersection: bool)
    requires Extends(p, q, intersection) && Extends(q, s, intersection)
    ensures Extends(p, s, intersection)
  {
    GrewTransitive(p, q, s, intersection);
  }

  lemma {:induction false} RowRecordedExtends(p: Record, intersection: bool, candidates: seq<CostVector>, site: MergeSite,
                                              eventType: EventType, v: CostVector, list2: seq<CostVector>)
    ensures Extends(p, RowRecorded(p, intersection, candidates, site, eventType, v, list2), intersection)
    decreases |list2|
  {
    if list2 == [] {
      GrewReflexive(p, intersection);
    } else {
      var q := RowRecorded(p, intersection, candidates, site, eventType, v, list2[..|list2| - 1]);
      RowRecordedExtends(p, intersection, candidates, site, eventType, v, list2[..|list2| - 1]);
      var w := list2[|list2| - 1];
      var newCV := Add(Add(EventUnit(eventType), v), w);
      if !Rejected(candidates, newCV) {
        RecordedExtends(q, intersection, Event(site.ep, site.eh, Relabelled(eventType, site.ehChild2), newCV.cost),
                        [Solution(site.epChild1, site.ehChild1, v.cost), Solution(site.epChild2, site.ehChild2, w.cost)]);
        ExtendsTransitive(p, q, RowRecorded(p, intersection, candidates, site, eventType, v, list2), intersection);
      }
    }
  }

  /** A `merge` keeps the tables well formed, never removes an event from an
      all-events set and never lets a common set grow. */
  lemma {:induction false} MergeRecordedExtends(p: Record, intersection: bool, candidates: seq<CostVector>, site: MergeSite,
                                                eventType: EventType, list1: seq<CostVector>, list2: seq<CostVector>)
    ensures Extends(p, MergeRecorded(p, intersection, candidates, site, eventType, list1, list2), intersection)
    decreases |list1|
  {
    if list1 == [] {
      GrewReflexive(p, intersection);
    } else {
      var q := MergeRecorded(p, intersection, candidates, site, eventType, list1[..|list1| - 1], list2);
      MergeRecordedExtends(p, intersection, candidates, site, eventType, list1[..|list1| - 1], list2);
      RowRecordedExtends(q, intersection, candidates, site, eventType, list1[|list1| - 1], list2);
      ExtendsTransitive(p, q, MergeRecorded(p, intersection, candidates, site, eventType, list1, list2), intersection);
    }
  }

  /** A `lossmerge` keeps the tables well formed, never removes an event
      from an all-events set and never lets a common set grow. */
  lemma {:induction false} LossRecordedExtends(p: Record, intersection: bool, candidates: seq<CostVector>,
                                               ep: EdgeId, eh: EdgeId, ehChild: EdgeId, list: seq<CostVector>)
    ensures Extends(p, LossRecorded(p, intersection, candidates, ep, eh, ehChild, list), intersection)
    decreases |list|
  {
    if list == [] {
      GrewReflexive(p, intersection);
    } else {
      var q := LossRecorded(p, intersection, candidates, ep, eh, ehChild, list[..|list| - 1]);
      LossRecordedExtends(p, intersection, candidates, ep, eh, ehChild, list[..|list| - 1]);
      var v := list[|list| - 1];
      var newCV := Add(LossUnit, v);
      if !Rejected(candidates, newCV) {
        RecordedExtends(q, intersection, Event(ep, eh, LossAt(ehChild), newCV.cost), [Solution(ep, ehChild, v.cost)]);
        ExtendsTransitive(p, q, LossRecorded(p, intersection, candidates, ep, eh, ehChild, list), intersection);
      }
    }
  }

  /** Survivors is a filter: a vector survives exactly when it is in the
      list and no candidate dominates it. */
  lemma {:induction false} SurvivorsMembers(candidates: seq<CostVector>, list: seq<CostVector>, v: CostVector)
    ensures v in Survivors(candidates, list) <==> v in list && !Rejected(candidates, v)
    ensures |Survivors(candidates, list)| <= |list|
  {
    if list != [] {
      var init := list[..|list| - 1];
      SurvivorsMembers(candidates, init, v);
      assert list == init + [list[|list| - 1]];
    }
  }

  /** With no candidates nothing is rejected. */
  lemma {:induction false} SurvivorsOfNone(list: seq<CostVector>)
    ensures Survivors([], list) == list
  {
    if list != [] {
      SurvivorsOfNone(list[..|list| - 1]);
      assert list == list[..|list| - 1] + [list[|list| - 1]];
    }
  }

  /** Survivors distributes over concatenation. */
  lemma {:induction false} SurvivorsAppend(candidates: seq<CostVector>, a: seq<CostVector>, b: seq<CostVector>)
    ensures Survivors(candidates, a + b) == Survivors(candidates, a) + Survivors(candidates, b)
    decreases |b|
  {
    if b == [] {
      assert a + b == a;
    } else {
      var b' := b[..|b| - 1];
      assert (a + b)[..|a + b| - 1] == a + b';
      SurvivorsAppend(candidates, a, b');
    }
  }
}
