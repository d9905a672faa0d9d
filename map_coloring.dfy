/**
 * `MapCSP`: the map of Australia's seven states, to be coloured with three
 * colours so that neighbouring states differ.
 */
module MapColoring {
  import Engine

  const States: seq<string> := ["WA", "NT", "Q", "NSW", "V", "SA", "T"]

  const Colors: seq<string> := ["red", "green", "blue"]

  /** The `edges` dictionary, in its insertion order: each state with the neighbours listed under it. */
  const Edges: seq<(string, seq<string>)> :=
    [("SA", ["WA", "NT", "Q", "NSW", "V"]), ("NT", ["WA", "Q"]), ("NSW", ["Q", "V"])]

  /** The arcs the inner loop adds for one entry: for each neighbour, first state -> neighbour, then back. */
  function EntryArcs(state: string, others: seq<string>): (arcs: seq<Engine.Arc>)
    ensures |arcs| == 2 * |others|
  {
    if others == [] then []
    else
      var other := others[|others| - 1];
      EntryArcs(state, others[..|others| - 1]) + [Engine.Arc(state, other), Engine.Arc(other, state)]
  }

  /** The arcs the two loops add for a list of entries, in order. */
  function AllArcs(edges: seq<(string, seq<string>)>): seq<Engine.Arc> {
    if edges == [] then []
    else
      var entry := edges[|edges| - 1];
      AllArcs(edges[..|edges| - 1]) + EntryArcs(entry.0, entry.1)
  }

  /** `a` and `b` are listed as neighbours, under either of them. */
  ghost predicate Adjacent(edges: seq<(string, seq<string>)>, a: string, b: string) {
    exists i, j :: 0 <= i < |edges| && 0 <= j < |edges[i].1| &&
      ((edges[i].0 == a && edges[i].1[j] == b) || (edges[i].0 == b && edges[i].1[j] == a))
  }

  /** An entry's arcs are exactly the pairs of the state with one of its listed neighbours, both ways. */
  lemma {:induction false} EntryArcsPairs(state: string, others: seq<string>, a: string, b: string)
    ensures Engine.Arc(a, b) in EntryArcs(state, others) <==>
            exists j :: 0 <= j < |others| && ((state == a && others[j] == b) || (state == b && others[j] == a))
  {
    if others != [] {
      var front := others[..|others| - 1];
      EntryArcsPairs(state, front, a, b);
      if Engine.Arc(a, b) in EntryArcs(state, front) {
        var j :| 0 <= j < |front| && ((state == a && front[j] == b) || (state == b && front[j] == a));
        assert others[j] == front[j];
      }
      if exists j :: 0 <= j < |others| && ((state == a && others[j] == b) || (state == b && others[j] == a)) {
        var j :| 0 <= j < |others| && ((state == a && others[j] == b) || (state == b && others[j] == a));
        if j < |front| {
          assert front[j] == others[j];
        }
      }
    }
  }

  /** The constraint graph holds an arc a -> b exactly when a and b are listed as neighbours. */
  lemma {:induction false} ArcsAreAdjacency(edges: seq<(string, seq<string>)>, a: string, b: string)
    ensures Engine.Arc(a, b) in AllArcs(edges) <==> Adjacent(edges, a, b)
  {
    if edges != [] {
      var front := edges[..|edges| - 1];
      var entry := edges[|edges| - 1];
      ArcsAreAdjacency(front, a, b);
      EntryArcsPairs(entry.0, entry.1, a, b);
      if Engine.Arc(a, b) in AllArcs(front) {
        var i, j :| 0 <= i < |front| && 0 <= j < |front[i].1| &&
          ((front[i].0 == a && front[i].1[j] == b) || (front[i].0 == b && front[i].1[j] == a));
        assert edges[i] == front[i];
      } else if Engine.Arc(a, b) in EntryArcs(entry.0, entry.1) {
        var j :| 0 <= j < |entry.1| && ((entry.0 == a && entry.1[j] == b) || (entry.0 == b && entry.1[j] == a));
        assert edges[|edges| - 1] == entry;
      }
      if Adjacent(edges, a, b) {
        var i, j :| 0 <= i < |edges| && 0 <= j < |edges[i].1| &&
          ((edges[i].0 == a && edges[i].1[j] == b) || (edges[i].0 == b && edges[i].1[j] == a));
        if i < |front| {
          assert front[i] == edges[i];
        }
      }
    }
  }

  /** The arcs of the entry listed under "SA", in the order they are added. */
  lemma SouthAustraliaArcs()
    ensures EntryArcs("SA", ["WA", "NT", "Q", "NSW", "V"]) == [
      Engine.Arc("SA", "WA"), Engine.Arc("WA", "SA"), Engine.Arc("SA", "NT"), Engine.Arc("NT", "SA"),
      Engine.Arc("SA", "Q"), Engine.Arc("Q", "SA"), Engine.Arc("SA", "NSW"), Engine.Arc("NSW", "SA"),
      Engine.Arc("SA", "V"), Engine.Arc("V", "SA")]
  {
    var others: seq<string> := ["WA", "NT", "Q", "NSW", "V"];
    assert others[..4] == ["WA", "NT", "Q", "NSW"];
    assert others[..4][..3] == ["WA", "NT", "Q"];
    assert others[..4][..3][..2] == ["WA", "NT"];
    assert others[..4][..3][..2][..1] == ["WA"];
    assert EntryArcs("SA", ["WA", "NT"]) ==
      [Engine.Arc("SA", "WA"), Engine.Arc("WA", "SA"), Engine.Arc("SA", "NT"), Engine.Arc("NT", "SA")];
  }

  /** The edges table is the three entries' arcs, one entry after the other. */
  lemma EdgesByEntry()
    ensures AllArcs(Edges) ==
      EntryArcs("SA", ["WA", "NT", "Q", "NSW", "V"]) + EntryArcs("NT", ["WA", "Q"]) + EntryArcs("NSW", ["Q", "V"])
  {
    var sa, nt, nsw := Edges[0], Edges[1], Edges[2];
    assert Edges[..2] == [sa, nt] && Edges[..2][..1] == [sa] && [sa][..0] == [];
    assert AllArcs([sa]) == EntryArcs(sa.0, sa.1);
  }

  /** The map's 18 arcs, entry by entry, in the order they are added. */
  lemma MapArcs()
    ensures AllArcs(Edges) == [
      Engine.Arc("SA", "WA"), Engine.Arc("WA", "SA"), Engine.Arc("SA", "NT"), Engine.Arc("NT", "SA"),
      Engine.Arc("SA", "Q"), Engine.Arc("Q", "SA"), Engine.Arc("SA", "NSW"), Engine.Arc("NSW", "SA"),
      Engine.Arc("SA", "V"), Engine.Arc("V", "SA")] + [
      Engine.Arc("NT", "WA"), Engine.Arc("WA", "NT"), Engine.Arc("NT", "Q"), Engine.Arc("Q", "NT")] + [
      Engine.Arc("NSW", "Q"), Engine.Arc("Q", "NSW"), Engine.Arc("NSW", "V"), Engine.Arc("V", "NSW")]
  {
    EdgesByEntry();
    SouthAustraliaArcs();
    var nt: seq<string> := ["WA", "Q"];
    var nsw: seq<string> := ["Q", "V"];
    assert nt[..1] == ["WA"] && nsw[..1] == ["Q"];
  }

  /** An arc of an entry joins the entry's state with one of its listed neighbours. */
  lemma {:induction false} EntryArcEnds(state: string, others: seq<string>, arc: Engine.Arc)
    requires arc in EntryArcs(state, others)
    ensures (arc.source == state && arc.target in others) || (arc.target == state && arc.source in others)
  {
    var front := others[..|others| - 1];
    if arc in EntryArcs(state, front) {
      EntryArcEnds(state, front, arc);
    }
  }

  /** Every arc is symmetric: if a must differ from b, b must differ from a. */
  lemma MapArcsSymmetric(a: string, b: string)
    ensures Engine.Arc(a, b) in AllArcs(Edges) <==> Engine.Arc(b, a) in AllArcs(Edges)
  {
    ArcsAreAdjacency(Edges, a, b);
    ArcsAreAdjacency(Edges, b, a);
  }

  /** Arcs join two different declared states, and Tasmania ("T") takes part in none. */
  lemma MapArcEndpoints(arc: Engine.Arc)
    requires arc in AllArcs(Edges)
    ensures arc.source in States && arc.target in States
    ensures arc.source != arc.target
    ensures arc.source != "T" && arc.target != "T"
  {
    EdgesByEntry();
    var sa: seq<string> := ["WA", "NT", "Q", "NSW", "V"];
    var nt: seq<string> := ["WA", "Q"];
    var nsw: seq<string> := ["Q", "V"];
    if arc in EntryArcs("SA", sa) {
      EntryArcEnds("SA", sa, arc);
    } else if arc in EntryArcs("NT", nt) {
      EntryArcEnds("NT", nt, arc);
    } else {
      EntryArcEnds("NSW", nsw, arc);
    }
  }

  /** The first loop of `MapCSP.__init__`: each state becomes a variable with the three colours. */
  method DeclareStates(c: Engine.Csp)
    requires c.variables == [] && c.domains == map[] && c.groups == [] && c.arcs == []
    modifies c
    ensures c.variables == States
    ensures c.domains == map s | s in States :: Colors
    ensures c.groups == [] && c.arcs == []
  {
    for i := 0 to |States|
      invariant c.variables == States[..i]
      invariant c.domains == map s | s in States[..i] :: Colors
      invariant c.groups == [] && c.arcs == []
    {
      c.AddVariable(States[i], Colors);
      assert States[..i + 1] == States[..i] + [States[i]];
    }
    assert States[..|States|] == States;
  }

  /** The inner loop for one entry: both arcs for each listed neighbour, in order. */
  method AddEntry(c: Engine.Csp, state: string, others: seq<string>)
    modifies c
    ensures c.arcs == old(c.arcs) + EntryArcs(state, others)
    ensures c.variables == old(c.variables) && c.domains == old(c.domains) && c.groups == old(c.groups)
  {
    for j := 0 to |others|
      invariant c.arcs == old(c.arcs) + EntryArcs(state, others[..j])
      invariant c.variables == old(c.variables) && c.domains == old(c.domains) && c.groups == old(c.groups)
    {
      c.AddConstraintOneWay(state, others[j]);
      c.AddConstraintOneWay(others[j], state);
      assert others[..j + 1][..j] == others[..j];
    }
    assert others[..|others|] == others;
  }

  /** The outer loop of `MapCSP.__init__`: the arcs of every entry of `Edges`, in order. */
  method AddEdges(c: Engine.Csp)
    requires c.arcs == []
    modifies c
    ensures c.arcs == AllArcs(Edges)
    ensures c.variables == old(c.variables) && c.domains == old(c.domains) && c.groups == old(c.groups)
  {
    for i := 0 to |Edges|
      invariant c.arcs == AllArcs(Edges[..i])
      invariant c.variables == old(c.variables) && c.domains == old(c.domains) && c.groups == old(c.groups)
    {
      AddEntry(c, Edges[i].0, Edges[i].1);
      assert Edges[..i + 1][..i] == Edges[..i];
    }
    assert Edges[..|Edges|] == Edges;
  }

  /** The engine's tables once `MapCSP()` has run. */
  class MapCsp {
    const csp: Engine.Csp

    /** `MapCSP.__init__`: declare each state with the three colours, then add both arcs of every edge. */
    constructor ()
      ensures fresh(csp)
      ensures csp.variables == States
      ensures csp.domains == map s | s in States :: Colors
      ensures csp.groups == []
      ensures csp.arcs == AllArcs(Edges)
    {
      var c := new Engine.Csp();
      DeclareStates(c);
      AddEdges(c);
      csp := c;
    }
  }
}
