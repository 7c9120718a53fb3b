/** What the solver's tables and host index must hold for its recursion to
    return the values of the dynamic program, stated on the table values
    themselves, with the lemmas that one lookup or one store relies on. */
module MemoTables {
  import opened CostVectors
  import opened Trees
  import opened Frontier
  import opened ReconcileSpec

  /** A table keyed by (parasite edge, host edge). */
  type Table = map<(EdgeId, EdgeId), seq<CostVector>>

  /** Every entry of an A table is A(ep, eh) for its key; host tips are
      never stored, since `aliveEdgeCost` returns their base cases directly. */
  ghost predicate AliveTable(r: CostRange, x: Problem, table: Table)
    requires r.Valid() && ValidProblem(x)
  {
    forall k :: k in table ==>
      k.0 in x.parasite.edges && k.1 in x.host.edges && !TipEdge(x.host, k.1) &&
      table[k] == AliveCost(r, x, k.0, k.1)
  }

  /** Every entry of a C table is C(ep, eh) for its key; parasite tips are
      never stored, since `optimalEdgeCost` passes them through. */
  ghost predicate OptimalTable(r: CostRange, x: Problem, table: Table)
    requires r.Valid() && ValidProblem(x)
  {
    forall k :: k in table ==>
      k.0 in x.parasite.edges && k.1 in x.host.edges && !TipEdge(x.parasite, k.0) &&
      table[k] == OptimalCost(r, x, k.0, k.1)
  }

  /** `after` still holds every entry of `before`, unchanged. */
  ghost predicate Retains(before: Table, after: Table)
  {
    forall k :: k in before ==> k in after && after[k] == before[k]
  }

  /** Every entry of a Best table is the switch landing list for its key. */
  ghost predicate SwitchTable(r: CostRange, x: Problem, table: Table)
    requires r.Valid() && ValidProblem(x)
  {
    forall k :: k in table ==>
      k.0 in x.parasite.edges && k.1 in x.host.edges &&
      table[k] == ReconcileSpec.Switches(r, x, k.0, k.1, x.host.order)
  }

  /** `descendants` lists the strict descendants of every edge of the host
      tree, and `ancestors` names exactly the edges above it. */
  ghost predicate Indexed(host: Tree, ancestors: map<EdgeId, seq<EdgeId>>, descendants: map<EdgeId, seq<EdgeId>>)
    requires ValidTree(host)
  {
    forall e :: e in host.edges ==>
      && e in descendants && descendants[e] == Trees.Descendants(host, e)
      && e in ancestors && (forall a :: a in ancestors[e] <==> IsAncestor(host, a, e))
  }

  /** The whole state the recursion relies on: valid ranges and trees,
      three sound tables and an up-to-date host index. */
  ghost predicate Consistent(r: CostRange, x: Problem, a: Table, c: Table, b: Table,
                             ancestors: map<EdgeId, seq<EdgeId>>, descendants: map<EdgeId, seq<EdgeId>>)
  {
    && r.Valid() && ValidProblem(x)
    && AliveTable(r, x, a) && OptimalTable(r, x, c) && SwitchTable(r, x, b)
    && Indexed(x.host, ancestors, descendants)
  }

  lemma AliveLookup(r: CostRange, x: Problem, a: Table, c: Table, b: Table,
                    ancestors: map<EdgeId, seq<EdgeId>>, descendants: map<EdgeId, seq<EdgeId>>, ep: EdgeId, eh: EdgeId)
    requires Consistent(r, x, a, c, b, ancestors, descendants) && (ep, eh) in a
    ensures ep in x.parasite.edges && eh in x.host.edges && !TipEdge(x.host, eh)
    ensures a[(ep, eh)] == AliveCost(r, x, ep, eh)
  {
  }

  lemma OptimalLookup(r: CostRange, x: Problem, a: Table, c: Table, b: Table,
                      ancestors: map<EdgeId, seq<EdgeId>>, descendants: map<EdgeId, seq<EdgeId>>, ep: EdgeId, eh: EdgeId)
    requires Consistent(r, x, a, c, b, ancestors, descendants) && (ep, eh) in c
    ensures ep in x.parasite.edges && eh in x.host.edges && !TipEdge(x.parasite, ep)
    ensures c[(ep, eh)] == OptimalCost(r, x, ep, eh)
  {
  }

  lemma SwitchLookup(r: CostRange, x: Problem, a: Table, c: Table, b: Table,
                     ancestors: map<EdgeId, seq<EdgeId>>, descendants: map<EdgeId, seq<EdgeId>>, ep: EdgeId, eh: EdgeId)
    requires Consistent(r, x, a, c, b, ancestors, descendants) && (ep, eh) in b
    ensures ep in x.parasite.edges && eh in x.host.edges
    ensures b[(ep, eh)] == ReconcileSpec.Switches(r, x, ep, eh, x.host.order)
  {
  }

  /** The index answers the switch-landing test of `switches`. */
  lemma IndexedLanding(host: Tree, ancestors: map<EdgeId, seq<EdgeId>>, descendants: map<EdgeId, seq<EdgeId>>,
                       eh: EdgeId, e: EdgeId)
    requires ValidTree(host) && Indexed(host, ancestors, descendants) && eh in host.edges && e in host.edges
    ensures eh in ancestors && eh in descendants
    ensures e !in ancestors[eh] && e !in descendants[eh] <==> SwitchTarget(host, eh, e)
  {
  }

  /** Storing AliveCost(ep, eh) keeps an A table sound. */
  lemma AliveEntryStored(r: CostRange, x: Problem, table: Table, ep: EdgeId, eh: EdgeId, v: seq<CostVector>)
    requires r.Valid() && ValidProblem(x) && AliveTable(r, x, table)
    requires ep in x.parasite.edges && eh in x.host.edges && !TipEdge(x.host, eh)
    requires v == AliveCost(r, x, ep, eh)
    ensures AliveTable(r, x, table[(ep, eh) := v])
  {
    var updated := table[(ep, eh) := v];
    forall k | k in updated
      ensures k.0 in x.parasite.edges && k.1 in x.host.edges && !TipEdge(x.host, k.1)
      ensures updated[k] == AliveCost(r, x, k.0, k.1)
    {
      if k != (ep, eh) {
        assert k in table;
      }
    }
  }

  lemma AliveStored(r: CostRange, x: Problem, a: Table, c: Table, b: Table,
                    ancestors: map<EdgeId, seq<EdgeId>>, descendants: map<EdgeId, seq<EdgeId>>,
                    ep: EdgeId, eh: EdgeId, v: seq<CostVector>)
    requires Consistent(r, x, a, c, b, ancestors, descendants)
    requires ep in x.parasite.edges && eh in x.host.edges && !TipEdge(x.host, eh)
    requires v == AliveCost(r, x, ep, eh)
    ensures Consistent(r, x, a[(ep, eh) := v], c, b, ancestors, descendants)
  {
    AliveEntryStored(r, x, a, ep, eh, v);
  }

  /** Storing OptimalCost(ep, eh) keeps a C table sound. */
  lemma OptimalEntryStored(r: CostRange, x: Problem, table: Table, ep: EdgeId, eh: EdgeId, v: seq<CostVector>)
    requires r.Valid() && ValidProblem(x) && OptimalTable(r, x, table)
    requires ep in x.parasite.edges && eh in x.host.edges && !TipEdge(x.parasite, ep)
    requires v == OptimalCost(r, x, ep, eh)
    ensures OptimalTable(r, x, table[(ep, eh) := v])
  {
    var updated := table[(ep, eh) := v];
    forall k | k in updated
      ensures k.0 in x.parasite.edges && k.1 in x.host.edges && !TipEdge(x.parasite, k.0)
      ensures updated[k] == OptimalCost(r, x, k.0, k.1)
    {
      if k != (ep, eh) {
        assert k in table;
      }
    }
  }

  lemma OptimalStored(r: CostRange, x: Problem, a: Table, c: Table, b: Table,
                      ancestors: map<EdgeId, seq<EdgeId>>, descendants: map<EdgeId, seq<EdgeId>>,
                      ep: EdgeId, eh: EdgeId, v: seq<CostVector>)
    requires Consistent(r, x, a, c, b, ancestors, descendants)
    requires ep in x.parasite.edges && eh in x.host.edges && !TipEdge(x.parasite, ep)
    requires v == OptimalCost(r, x, ep, eh)
    ensures Consistent(r, x, a, c[(ep, eh) := v], b, ancestors, descendants)
  {
    OptimalEntryStored(r, x, c, ep, eh, v);
  }

  lemma SwitchStored(r: CostRange, x: Problem, a: Table, c: Table, b: Table,
                     ancestors: map<EdgeId, seq<EdgeId>>, descendants: map<EdgeId, seq<EdgeId>>,
                     ep: EdgeId, eh: EdgeId, v: seq<CostVector>)
    requires Consistent(r, x, a, c, b, ancestors, descendants)
    requires ep in x.parasite.edges && eh in x.host.edges && v == ReconcileSpec.Switches(r, x, ep, eh, x.host.order)
    ensures Consistent(r, x, a, c, b[(ep, eh) := v], ancestors, descendants)
  {
    var updated := b[(ep, eh) := v];
    forall k | k in updated
      ensures k.0 in x.parasite.edges && k.1 in x.host.edges &&
        updated[k] == ReconcileSpec.Switches(r, x, k.0, k.1, x.host.order)
    {
      if k != (ep, eh) {
        assert k in b;
      }
    }
  }

  /** Sound tables and a fresh host index make a consistent state. */
  lemma ConsistentOnceIndexed(r: CostRange, x: Problem, a: Table, c: Table, b: Table,
                              ancestors: map<EdgeId, seq<EdgeId>>, descendants: map<EdgeId, seq<EdgeId>>)
    requires r.Valid() && ValidProblem(x)
    requires AliveTable(r, x, a) && OptimalTable(r, x, c) && SwitchTable(r, x, b)
    requires Indexed(x.host, ancestors, descendants)
    ensures Consistent(r, x, a, c, b, ancestors, descendants)
  {
  }

  /** Two sound tables agree wherever both have an entry, so a table that
      only gains keys keeps every entry it had: with the memo tables sound
      before and after a call, keeping the keys is keeping the entries. */
  lemma ReadyTablesRetain(r: CostRange, x: Problem, a: Table, c: Table, b: Table,
                          ancestors: map<EdgeId, seq<EdgeId>>, descendants: map<EdgeId, seq<EdgeId>>,
                          a': Table, c': Table, b': Table,
                          ancestors': map<EdgeId, seq<EdgeId>>, descendants': map<EdgeId, seq<EdgeId>>)
    requires Consistent(r, x, a, c, b, ancestors, descendants)
    requires Consistent(r, x, a', c', b', ancestors', descendants')
    requires a.Keys <= a'.Keys && c.Keys <= c'.Keys && b.Keys <= b'.Keys
    ensures Retains(a, a') && Retains(c, c') && Retains(b, b')
  {
  }

  /** One more host edge appends its C(pTop, e) to the top-level list. */
  lemma TopCostsStep(r: CostRange, x: Problem, i: nat)
    requires r.Valid() && ValidProblem(x) && ParasiteTop in x.parasite.edges && i < |x.host.order|
    ensures forall e :: e in x.host.order[..i] ==> e in x.host.edges
    ensures forall e :: e in x.host.order[..i + 1] ==> e in x.host.edges
    ensures TopCosts(r, x, x.host.order[..i + 1])
         == TopCosts(r, x, x.host.order[..i]) + OptimalCost(r, x, ParasiteTop, x.host.order[i])
  {
    var edges := x.host.order[..i + 1];
    PrefixInEdges(x.host, i);
    PrefixInEdges(x.host, i + 1);
    PrefixOfPrefix(x.host.order, i);
  }

  /** One more host edge appends its C(ep, e) to the landing list exactly
      when it is a legal switch target. */
  lemma SwitchesStep(r: CostRange, x: Problem, ep: EdgeId, eh: EdgeId, i: nat)
    requires r.Valid() && ValidProblem(x) && ep in x.parasite.edges && eh in x.host.edges && i < |x.host.order|
    ensures forall e :: e in x.host.order[..i] ==> e in x.host.edges
    ensures forall e :: e in x.host.order[..i + 1] ==> e in x.host.edges
    ensures ReconcileSpec.Switches(r, x, ep, eh, x.host.order[..i + 1])
         == ReconcileSpec.Switches(r, x, ep, eh, x.host.order[..i])
            + (if SwitchTarget(x.host, eh, x.host.order[i]) then OptimalCost(r, x, ep, x.host.order[i]) else [])
  {
    var edges := x.host.order[..i + 1];
    PrefixInEdges(x.host, i);
    PrefixInEdges(x.host, i + 1);
    PrefixOfPrefix(x.host.order, i);
    assert edges[..|edges| - 1] == x.host.order[..i] && edges[|edges| - 1] == x.host.order[i];
  }

  lemma PrefixOfPrefix<T>(s: seq<T>, i: nat)
    requires i < |s|
    ensures s[..i + 1][..i] == s[..i] && s[..i + 1][i] == s[i]
  {
  }

  lemma PrefixInEdges(t: Tree, n: nat)
    requires ValidTree(t) && n <= |t.order|
    ensures forall e :: e in t.order[..n] ==> e in t.edges
  {
    forall e | e in t.order[..n]
      ensures e in t.edges
    {
      var k :| 0 <= k < n && t.order[..n][k] == e;
      assert t.order[k] == e;
    }
  }

  /** `sofar` is the landing list of (ep, eh) over the first i host edges. */
  ghost predicate LandingsUpTo(r: CostRange, x: Problem, ep: EdgeId, eh: EdgeId, i: nat, sofar: seq<CostVector>)
    requires r.Valid() && ValidProblem(x) && ep in x.parasite.edges && eh in x.host.edges
  {
    i <= |x.host.order| && sofar == ReconcileSpec.Switches(r, x, ep, eh, x.host.order[..i])
  }

  /** `sofar` is the top-level list over the first i host edges. */
  ghost predicate TopUpTo(r: CostRange, x: Problem, i: nat, sofar: seq<CostVector>)
    requires r.Valid() && ValidProblem(x) && ParasiteTop in x.parasite.edges
  {
    i <= |x.host.order| && sofar == TopCosts(r, x, x.host.order[..i])
  }

  lemma LandingsComplete(r: CostRange, x: Problem, ep: EdgeId, eh: EdgeId, sofar: seq<CostVector>)
    requires r.Valid() && ValidProblem(x) && ep in x.parasite.edges && eh in x.host.edges
    requires LandingsUpTo(r, x, ep, eh, |x.host.order|, sofar)
    ensures sofar == ReconcileSpec.Switches(r, x, ep, eh, x.host.order)
  {
    assert x.host.order[..|x.host.order|] == x.host.order;
  }

  lemma TopComplete(r: CostRange, x: Problem, sofar: seq<CostVector>)
    requires r.Valid() && ValidProblem(x) && ParasiteTop in x.parasite.edges
    requires TopUpTo(r, x, |x.host.order|, sofar)
    ensures sofar == TopCosts(r, x, x.host.order)
  {
    assert x.host.order[..|x.host.order|] == x.host.order;
  }
}
