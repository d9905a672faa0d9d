/**
 * The tables of the generic CSP engine that the puzzle classes inherit from.
 * The engine itself (search, inference, instrumentation) is not part of this
 * model; only the declaration calls the puzzle code makes are, and each of
 * them inserts into or appends to one table and leaves the others alone.
 */
module Engine {
  /**
   * A one-way binary constraint: the value of `source` must differ from the
   * value of `target`. Every call in the modelled code passes `lambda i, j: i != j`.
   */
  datatype Arc = Arc(source: string, target: string)

  class Csp {
    /** Variable names in declaration order. */
    var variables: seq<string>
    /** Each declared variable's initial domain. */
    var domains: map<string, seq<string>>
    /** All-different constraints, in declaration order. */
    var groups: seq<seq<string>>
    /** One-way inequality constraints, in declaration order. */
    var arcs: seq<Arc>

    constructor ()
      ensures variables == [] && domains == map[] && groups == [] && arcs == []
    {
      variables, domains, groups, arcs := [], map[], [], [];
    }

    /** `add_variable(name, domain)` */
    method AddVariable(name: string, domain: seq<string>)
      modifies this
      ensures variables == old(variables) + [name]
      ensures domains == old(domains)[name := domain]
      ensures groups == old(groups) && arcs == old(arcs)
    {
      variables := variables + [name];
      domains := domains[name := domain];
    }

    /** `add_all_different_constraint(names)` */
    method AddAllDifferentConstraint(names: seq<string>)
      modifies this
      ensures groups == old(groups) + [names]
      ensures variables == old(variables) && domains == old(domains) && arcs == old(arcs)
    {
      groups := groups + [names];
    }

    /** `add_constraint_one_way(source, target, lambda i, j: i != j)` */
    method AddConstraintOneWay(source: string, target: string)
      modifies this
      ensures arcs == old(arcs) + [Arc(source, target)]
      ensures variables == old(variables) && domains == old(domains) && groups == old(groups)
    {
      arcs := arcs + [Arc(source, target)];
    }
  }
}
