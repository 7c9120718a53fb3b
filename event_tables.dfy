/** What the event-recording solver's tables, host index and event records
    must hold for its recursion to return the values of its dynamic
    program, stated on the values themselves, with the lemmas that one
    lookup, one store or one loop step relies on. */
module EventTables {
  import opened CostVectors
  import opened Trees
  import opened Frontier
  import opened ReconcileSpec
  import opened MemoTables
  import opened Provenance
  import opened EventsSpec

  /** A table of landing pairs keyed by (parasite edge, host edge). */
  type PairTable = map<(EdgeId, EdgeId), seq<(EdgeId, seq<CostVector>)>>

  ghost predicate EvAliveTable(r: CostRange, x: Problem, table: Table)
    requires r.Valid() && ValidProblem(x)
  {
    forall k :: k in table ==>
      k.0 in x.parasite.edges && k.1 in x.host.edges && !TipEdge(x.host, k.1) &&
      table[k] == EvAliveCost(r, x, k.0, k.1)
  }

  ghost predicate EvOptimalTable(r: CostRange, x: Problem, table: Table)
    requires r.Valid() && ValidProblem(x)
  {
    forall k :: k in table ==>
      k.0 in x.parasite.edges && k.1 in x.host.edges && !TipEdge(x.parasite, k.0) &&
      table[k] == EvOptimalCost(r, x, k.0, k.1)
  }

  ghost predicate EvSwitchTable(r: CostRange, x: Problem, table: PairTable)
    requires r.Valid() && ValidProblem(x)
  {
    forall k :: k in table ==>
      k.0 in x.parasite.edges && k.1 in x.host.edges && table[k] == AllSwitches(r, x, k.0, k.1, x.host.order)
  }

  /** The tables agree with the dynamic program, the host index is up to
      date, the candidate list is empty (the solver never fills it) and the
      event records are well formed. */
  ghost predicate EvConsistent(r: CostRange, x: Problem, candidates: seq<CostVector>, a: Table, c: Table, b: PairTable,
                               ancestors: map<EdgeId, seq<EdgeId>>, descendants: map<EdgeId, seq<EdgeId>>, p: Record)
  {
    && r.Valid() && ValidProblem(x) && candidates == []
    && EvAliveTable(r, x, a) && EvOptimalTable(r, x, c) && EvSwitchTable(r, x, b)
    && Indexed(x.host, ancestors, descendants)
    && WellFormed(p)
  }

  lemma EvAliveLookup(r: CostRange, x: Problem, candidates: seq<CostVector>, a: Table, c: Table, b: PairTable,
                      ancestors: map<EdgeId, seq<EdgeId>>, descendants: map<EdgeId, seq<EdgeId>>, p: Record, ep: EdgeId, eh: EdgeId)
    requires EvConsistent(r, x, candidates, a, c, b, ancestors, descendants, p) && (ep, eh) in a
    ensures ep in x.parasite.edges && eh in x.host.edges && !TipEdge(x.host, eh)
    ensures a[(ep, eh)] == EvAliveCost(r, x, ep, eh)
  {
  }

  lemma EvOptimalLookup(r: CostRange, x: Problem, candidates: seq<CostVector>, a: Table, c: Table, b: PairTable,
                        ancestors: map<EdgeId, seq<EdgeId>>, descendants: map<EdgeId, seq<EdgeId>>, p: Record, ep: EdgeId, eh: EdgeId)
    requires EvConsistent(r, x, candidates, a, c, b, ancestors, descendants, p) && (ep, eh) in c
    ensures ep in x.parasite.edges && eh in x.host.edges && !TipEdge(x.parasite, ep)
    ensures c[(ep, eh)] == EvOptimalCost(r, x, ep, eh)
  {
  }

  lemma EvSwitchLookup(r: CostRange, x: Problem, candidates: seq<CostVector>, a: Table, c: Table, b: PairTable,
                       ancestors: map<EdgeId, seq<EdgeId>>, descendants: map<EdgeId, seq<EdgeId>>, p: Record, ep: EdgeId, eh: EdgeId)
    requires EvConsistent(r, x, candidates, a, c, b, ancestors, descendants, p) && (ep, eh) in b
    ensures ep in x.parasite.edges && eh in x.host.edges && b[(ep, eh)] == AllSwitches(r, x, ep, eh, x.host.order)
  {
  }

  /** Storing EvAliveCost(ep, eh) keeps an A table sound. */
  lemma EvAliveEntryStored(r: CostRange, x: Problem, table: Table, ep: EdgeId, eh: EdgeId, v: seq<CostVector>)
    requires r.Valid() && ValidProblem(x) && EvAliveTable(r, x, table)
    requires ep in x.parasite.edges && eh in x.host.edges && !TipEdge(x.host, eh)
    requires v == EvAliveCost(r, x, ep, eh)
    ensures EvAliveTable(r, x, table[(ep, eh) := v])
  {
    var updated := table[(ep, eh) := v];
    forall k | k in updated
      ensures k.0 in x.parasite.edges && k.1 in x.host.edges && !TipEdge(x.host, k.1)
      ensures updated[k] == EvAliveCost(r, x, k.0, k.1)
    {
      if k != (ep, eh) {
        assert k in table;
      }
    }
  }

  lemma EvAliveStored(r: CostRange, x: Problem, candidates: seq<CostVector>, a: Table, c: Table, b: PairTable,
                      ancestors: map<EdgeId, seq<EdgeId>>, descendants: map<EdgeId, seq<EdgeId>>, p: Record,
                      ep: EdgeId, eh: EdgeId, v: seq<CostVector>)
    requires EvConsistent(r, x, candidates, a, c, b, ancestors, descendants, p)
    requires ep in x.parasite.edges && eh in x.host.edges && !TipEdge(x.host, eh)
    requires v == EvAliveCost(r, x, ep, eh)
    ensures EvConsistent(r, x, candidates, a[(ep, eh) := v], c, b, ancestors, descendants, p)
  {
    EvAliveEntryStored(r, x, a, ep, eh, v);
  }

  /** Storing EvOptimalCost(ep, eh) keeps a C table sound. */
  lemma EvOptimalEntryStored(r: CostRange, x: Problem, table: Table, ep: EdgeId, eh: EdgeId, v: seq<CostVector>)
    requires r.Valid() && ValidProblem(x) && EvOptimalTable(r, x, table)
    requires ep in x.parasite.edges && eh in x.host.edges && !TipEdge(x.parasite, ep)
    requires v == EvOptimalCost(r, x, ep, eh)
    ensures EvOptimalTable(r, x, table[(ep, eh) := v])
  {
    var updated := table[(ep, eh) := v];
    forall k | k in updated
      ensures k.0 in x.parasite.edges && k.1 in x.host.edges && !TipEdge(x.parasite, k.0)
      ensures updated[k] == EvOptimalCost(r, x, k.0, k.1)
    {
      if k != (ep, eh) {
        assert k in table;
      }
    }
  }

  lemma EvOptimalStored(r: CostRange, x: Problem, candidates: seq<CostVector>, a: Table, c: Table, b: PairTable,
                        ancestors: map<EdgeId, seq<EdgeId>>, descendants: map<EdgeId, seq<EdgeId>>, p: Record,
                        ep: EdgeId, eh: EdgeId, v: seq<CostVector>)
    requires EvConsistent(r, x, candidates, a, c, b, ancestors, descendants, p)
    requires ep in x.parasite.edges && eh in x.host.edges && !TipEdge(x.parasite, ep)
    requires v == EvOptimalCost(r, x, ep, eh)
    ensures EvConsistent(r, x, candidates, a, c[(ep, eh) := v], b, ancestors, descendants, p)
  {
    EvOptimalEntryStored(r, x, c, ep, eh, v);
  }

  lemma EvSwitchStored(r: CostRange, x: Problem, candidates: seq<CostVector>, a: Table, c: Table, b: PairTable,
                       ancestors: map<EdgeId, seq<EdgeId>>, descendants: map<EdgeId, seq<EdgeId>>, p: Record,
                       ep: EdgeId, eh: EdgeId, v: seq<(EdgeId, seq<CostVector>)>)
    requires EvConsistent(r, x, candidates, a, c, b, ancestors, descendants, p)
    requires ep in x.parasite.edges && eh in x.host.edges && v == AllSwitches(r, x, ep, eh, x.host.order)
    ensures EvConsistent(r, x, candidates, a, c, b[(ep, eh) := v], ancestors, descendants, p)
  {
    var updated := b[(ep, eh) := v];
    forall k | k in updated
      ensures k.0 in x.parasite.edges && k.1 in x.host.edges && updated[k] == AllSwitches(r, x, k.0, k.1, x.host.order)
    {
      if k != (ep, eh) {
        assert k in b;
      }
    }
  }

  /** The event-recording solver's tables and event records at one point. */
  datatype Snapshot = Snapshot(a: Table, c: Table, b: PairTable, p: Record)

  /** From `s` to `t` the tables kept every key (with sound tables at both
      points, every entry too) and the event records only grew. */
  ghost predicate Within(s: Snapshot, t: Snapshot, intersection: bool)
  {
    && s.a.Keys <= t.a.Keys && s.c.Keys <= t.c.Keys && s.b.Keys <= t.b.Keys
    && Grew(s.p, t.p, intersection)
  }

  /** With sound tables at both points, keeping the keys is keeping the
      entries: a stored entry is never replaced by another value. */
  lemma WithinRetains(r: CostRange, x: Problem, candidates: seq<CostVector>,
                      ancestors: map<EdgeId, seq<EdgeId>>, descendants: map<EdgeId, seq<EdgeId>>,
                      s: Snapshot, t: Snapshot, intersection: bool)
    requires EvConsistent(r, x, candidates, s.a, s.c, s.b, ancestors, descendants, s.p)
    requires EvConsistent(r, x, candidates, t.a, t.c, t.b, ancestors, descendants, t.p)
    requires Within(s, t, intersection)
    ensures Retains(s.a, t.a) && Retains(s.c, t.c)
    ensures forall k :: k in s.b ==> k in t.b && t.b[k] == s.b[k]
  {
  }

  lemma WithinReflexive(s: Snapshot, intersection: bool)
    ensures Within(s, s, intersection)
  {
    GrewReflexive(s.p, intersection);
  }

  lemma WithinTransitive(s: Snapshot, t: Snapshot, u: Snapshot, intersection: bool)
    requires Within(s, t, intersection) && Within(t, u, intersection)
    ensures Within(s, u, intersection)
  {
    GrewTransitive(s.p, t.p, u.p, intersection);
  }

  /** `pairs` is the landing-pair list of (ep, eh) over the first i host
      edges. */
  ghost predicate PairsUpTo(r: CostRange, x: Problem, ep: EdgeId, eh: EdgeId, i: nat, pairs: seq<(EdgeId, seq<CostVector>)>)
    requires r.Valid() && ValidProblem(x) && ep in x.parasite.edges && eh in x.host.edges
  {
    i <= |x.host.order| && pairs == AllSwitches(r, x, ep, eh, x.host.order[..i])
  }

  lemma AllSwitchesStep(r: CostRange, x: Problem, ep: EdgeId, eh: EdgeId, i: nat)
    requires r.Valid() && ValidProblem(x) && ep in x.parasite.edges && eh in x.host.edges && i < |x.host.order|
    ensures forall e :: e in x.host.order[..i] ==> e in x.host.edges
    ensures forall e :: e in x.host.order[..i + 1] ==> e in x.host.edges
    ensures AllSwitches(r, x, ep, eh, x.host.order[..i + 1])
         == AllSwitches(r, x, ep, eh, x.host.order[..i])
            + (if SwitchTarget(x.host, eh, x.host.order[i]) then [(x.host.order[i], EvOptimalCost(r, x, ep, x.host.order[i]))] else [])
  {
    PrefixInEdges(x.host, i);
    PrefixInEdges(x.host, i + 1);
    PrefixOfPrefix(x.host.order, i);
  }

  lemma PairsComplete(r: CostRange, x: Problem, ep: EdgeId, eh: EdgeId, pairs: seq<(EdgeId, seq<CostVector>)>)
    requires r.Valid() && ValidProblem(x) && ep in x.parasite.edges && eh in x.host.edges
    requires PairsUpTo(r, x, ep, eh, |x.host.order|, pairs)
    ensures pairs == AllSwitches(r, x, ep, eh, x.host.order)
  {
    assert x.host.order[..|x.host.order|] == x.host.order;
  }

  /** `sofar` is the top-level list over the first i host edges. */
  ghost predicate EvTopUpTo(r: CostRange, x: Problem, i: nat, sofar: seq<CostVector>)
    requires r.Valid() && ValidProblem(x) && ParasiteTop in x.parasite.edges
  {
    i <= |x.host.order| && sofar == EvTopCosts(r, x, x.host.order[..i])
  }

  lemma EvTopCostsStep(r: CostRange, x: Problem, i: nat)
    requires r.Valid() && ValidProblem(x) && ParasiteTop in x.parasite.edges && i < |x.host.order|
    ensures forall e :: e in x.host.order[..i] ==> e in x.host.edges
    ensures forall e :: e in x.host.order[..i + 1] ==> e in x.host.edges
    ensures EvTopCosts(r, x, x.host.order[..i + 1])
         == EvTopCosts(r, x, x.host.order[..i]) + EvOptimalCost(r, x, ParasiteTop, x.host.order[i])
  {
    PrefixInEdges(x.host, i);
    PrefixInEdges(x.host, i + 1);
    PrefixOfPrefix(x.host.order, i);
  }

  lemma EvTopComplete(r: CostRange, x: Problem, sofar: seq<CostVector>)
    requires r.Valid() && ValidProblem(x) && ParasiteTop in x.parasite.edges
    requires EvTopUpTo(r, x, |x.host.order|, sofar)
    ensures sofar == EvTopCosts(r, x, x.host.order)
  {
    assert x.host.order[..|x.host.order|] == x.host.order;
  }

  lemma SwitchMergesStep(left: seq<CostVector>, pairs: seq<(EdgeId, seq<CostVector>)>, i: nat)
    requires i < |pairs|
    ensures SwitchMerges(left, pairs[..i + 1]) == SwitchMerges(left, pairs[..i]) + Merged(Shift(SwitchUnit, left), pairs[i].1)
  {
    PrefixOfPrefix(pairs, i);
  }

  /** The merges over every pair. Kept out of `SwitchOneWay`, whose context
      carries the solver's heap, where the slice identity alone is costly. */
  lemma SwitchMergesComplete(left: seq<CostVector>, pairs: seq<(EdgeId, seq<CostVector>)>)
    ensures SwitchMerges(left, pairs[..|pairs|]) == SwitchMerges(left, pairs)
  {
    assert pairs[..|pairs|] == pairs;
  }

  lemma ShiftPrefix(unit: CostVector, list: seq<CostVector>, j: nat)
    requires j < |list|
    ensures Shift(unit, list[..j + 1]) == Shift(unit, list[..j]) + [Add(unit, list[j])]
  {
    assert Shift(unit, list[..j + 1])[..j] == Shift(unit, list[..j]);
  }

  /** One pair (v, list2[j]) of a `merge` row: its vector is kept and
      recorded unless a candidate rejects it. */
  lemma RowStep(p: Record, intersection: bool, candidates: seq<CostVector>, site: MergeSite,
                eventType: EventType, v: CostVector, list2: seq<CostVector>, j: nat)
    requires j < |list2|
    ensures var newCV := Add(Add(EventUnit(eventType), v), list2[j]);
      && Survivors(candidates, Shift(Add(EventUnit(eventType), v), list2[..j + 1]))
         == Survivors(candidates, Shift(Add(EventUnit(eventType), v), list2[..j]))
            + (if Rejected(candidates, newCV) then [] else [newCV])
      && RowRecorded(p, intersection, candidates, site, eventType, v, list2[..j + 1])
         == (if Rejected(candidates, newCV) then RowRecorded(p, intersection, candidates, site, eventType, v, list2[..j])
             else Recorded(RowRecorded(p, intersection, candidates, site, eventType, v, list2[..j]), intersection,
                           Event(site.ep, site.eh, Relabelled(eventType, site.ehChild2), newCV.cost),
                           [Solution(site.epChild1, site.ehChild1, v.cost), Solution(site.epChild2, site.ehChild2, list2[j].cost)]))
  {
    var u := Add(EventUnit(eventType), v);
    ShiftPrefix(u, list2, j);
    PrefixOfPrefix(list2, j);
    AddAssociative(EventUnit(eventType), v, list2[j]);
    SurvivorsAppend(candidates, Shift(u, list2[..j]), [Add(u, list2[j])]);
  }

  /** One row of a `merge`: the row's survivors follow those of the rows
      before, and its records follow theirs. */
  lemma MergeStep(p: Record, intersection: bool, candidates: seq<CostVector>, site: MergeSite,
                  eventType: EventType, list1: seq<CostVector>, list2: seq<CostVector>, i: nat)
    requires i < |list1|
    ensures MergeOutput(candidates, eventType, list1[..i + 1], list2)
         == MergeOutput(candidates, eventType, list1[..i], list2)
            + Survivors(candidates, Shift(Add(EventUnit(eventType), list1[i]), list2))
    ensures MergeRecorded(p, intersection, candidates, site, eventType, list1[..i + 1], list2)
         == RowRecorded(MergeRecorded(p, intersection, candidates, site, eventType, list1[..i], list2),
                        intersection, candidates, site, eventType, list1[i], list2)
  {
    var unit := EventUnit(eventType);
    PrefixOfPrefix(list1, i);
    ShiftPrefix(unit, list1, i);
    var shifted := Shift(unit, list1[..i + 1]);
    assert shifted[..i] == Shift(unit, list1[..i]);
    assert Merged(shifted, list2) == Merged(Shift(unit, list1[..i]), list2) + Shift(Add(unit, list1[i]), list2);
    SurvivorsAppend(candidates, Merged(Shift(unit, list1[..i]), list2), Shift(Add(unit, list1[i]), list2));
  }

  /** One vector of a `lossmerge`. */
  lemma LossStep(p: Record, intersection: bool, candidates: seq<CostVector>,
                 ep: EdgeId, eh: EdgeId, ehChild: EdgeId, list: seq<CostVector>, j: nat)
    requires j < |list|
    ensures var newCV := Add(LossUnit, list[j]);
      && LossOutput(candidates, list[..j + 1])
         == LossOutput(candidates, list[..j]) + (if Rejected(candidates, newCV) then [] else [newCV])
      && LossRecorded(p, intersection, candidates, ep, eh, ehChild, list[..j + 1])
         == (if Rejected(candidates, newCV) then LossRecorded(p, intersection, candidates, ep, eh, ehChild, list[..j])
             else Recorded(LossRecorded(p, intersection, candidates, ep, eh, ehChild, list[..j]), intersection,
                           Event(ep, eh, LossAt(ehChild), newCV.cost), [Solution(ep, ehChild, list[j].cost)]))
  {
    ShiftPrefix(LossUnit, list, j);
    PrefixOfPrefix(list, j);
    SurvivorsAppend(candidates, Shift(LossUnit, list[..j]), [Add(LossUnit, list[j])]);
  }
}
