/** Building the ordering edges, with duplicate declarations counted once. */
module OrderingEdges {
  import opened Names
  import opened Graph

  type Successors = map<Name, set<Name>>

  predicate Has(successors: Successors, a: Name, b: Name)
  {
    a in successors && b in successors[a]
  }

  /** Everything ordered before `b`. */
  function Into(successors: Successors, b: Name): set<Name>
  {
    set a | a in successors && b in successors[a]
  }

  /** Each in-degree counts predecessors, not declarations. */
  ghost predicate Built(successors: Successors, inDegree: map<Name, nat>, wanted: set<Name>)
  {
    && (forall a, b | Has(successors, a, b) :: a in wanted && b in wanted)
    && inDegree.Keys == wanted
    && (forall b | b in wanted :: inDegree[b] == |Into(successors, b)|)
  }

  lemma IntoGrows(s: Successors, t: Successors, from: Name, to: Name, b: Name)
    requires forall x, y :: Has(t, x, y) <==> Has(s, x, y) || (x == from && y == to)
    ensures Into(t, b) == if b == to then Into(s, b) + {from} else Into(s, b)
  {
    forall a ensures a in Into(t, b) <==> a in Into(s, b) || (a == from && b == to) {
      assert Has(t, a, b) <==> Has(s, a, b) || (a == from && b == to);
    }
  }

  /** The counts stay right when an edge is added, whether or not it was there already. */
  lemma CountOneMore(
      s: Successors, t: Successors, d: map<Name, nat>, e: map<Name, nat>, wanted: set<Name>, from: Name, to: Name)
    requires Built(s, d, wanted) && from in wanted && to in wanted
    requires forall x, y :: Has(t, x, y) <==> Has(s, x, y) || (x == from && y == to)
    requires e == if Has(s, from, to) then d else d[to := d[to] + 1]
    ensures Built(t, e, wanted)
  {
    forall b | b in wanted ensures e[b] == |Into(t, b)| {
      IntoGrows(s, t, from, to, b);
      assert from in Into(s, to) <==> Has(s, from, to);
      if Has(s, from, to) { assert Into(s, to) + {from} == Into(s, to); }
    }
  }

  /** `add_edge`: an edge to or from a unit that is not being started is dropped. */
  method AddEdge(wanted: set<Name>, from: Name, to: Name, successors: Successors, inDegree: map<Name, nat>)
    returns (s: Successors, d: map<Name, nat>)
    requires Built(successors, inDegree, wanted)
    ensures Built(s, d, wanted)
    ensures forall a, b :: Has(s, a, b) <==>
              Has(successors, a, b) || (a == from && b == to && from in wanted && to in wanted)
  {
    s, d := successors, inDegree;
    if from !in wanted || to !in wanted {
      return;
    }
    var known := if from in s then s[from] else {};
    s := s[from := known + {to}];
    if to !in known {
      d := d[to := d[to] + 1];
    }
    CountOneMore(successors, s, inDegree, d, wanted, from, to);
  }

  /** `name`'s own file reports each ordering on a unit that does not exist. */
  predicate Misses(units: UnitSet, name: Name, deps: seq<Name>, x: Warning)
  {
    x.MissingOrdering? && x.who == name && x.missing in deps && x.missing !in units
  }

  method AddAfter(units: UnitSet, wanted: set<Name>, name: Name, deps: seq<Name>,
                  successors: Successors, inDegree: map<Name, nat>, warnings: seq<Warning>)
    returns (s: Successors, d: map<Name, nat>, w: seq<Warning>)
    requires Built(successors, inDegree, wanted) && wanted <= units.Keys && name in wanted
    ensures Built(s, d, wanted)
    ensures forall a, b :: Has(s, a, b) <==> Has(successors, a, b) || (b == name && a in deps && a in wanted)
    ensures forall x :: x in w <==> x in warnings || Misses(units, name, deps, x)
  {
    s, d, w := successors, inDegree, warnings;
    for i := 0 to |deps|
      invariant Built(s, d, wanted)
      invariant forall a, b :: Has(s, a, b) <==> Has(successors, a, b) || (b == name && a in deps[..i] && a in wanted)
      invariant forall x :: x in w <==> x in warnings || Misses(units, name, deps[..i], x)
    {
      TakeOneMore(deps, i);
      if deps[i] !in units {
        w := w + [MissingOrdering(name, deps[i])];
      } else {
        s, d := AddEdge(wanted, deps[i], name, s, d);
      }
    }
    TakeAll(deps);
  }

  method AddBefore(units: UnitSet, wanted: set<Name>, name: Name, deps: seq<Name>,
                   successors: Successors, inDegree: map<Name, nat>, warnings: seq<Warning>)
    returns (s: Successors, d: map<Name, nat>, w: seq<Warning>)
    requires Built(successors, inDegree, wanted) && wanted <= units.Keys && name in wanted
    ensures Built(s, d, wanted)
    ensures forall a, b :: Has(s, a, b) <==> Has(successors, a, b) || (a == name && b in deps && b in wanted)
    ensures forall x :: x in w <==> x in warnings || Misses(units, name, deps, x)
  {
    s, d, w := successors, inDegree, warnings;
    for i := 0 to |deps|
      invariant Built(s, d, wanted)
      invariant forall a, b :: Has(s, a, b) <==> Has(successors, a, b) || (a == name && b in deps[..i] && b in wanted)
      invariant forall x :: x in w <==> x in warnings || Misses(units, name, deps[..i], x)
    {
      TakeOneMore(deps, i);
      if deps[i] !in units {
        w := w + [MissingOrdering(name, deps[i])];
      } else {
        s, d := AddEdge(wanted, name, deps[i], s, d);
      }
    }
    TakeAll(deps);
  }

  /** The edges and the warnings one unit's file gives rise to. */
  method DeclareEdges(units: UnitSet, wanted: set<Name>, name: Name,
                      successors: Successors, inDegree: map<Name, nat>, warnings: seq<Warning>)
    returns (s: Successors, d: map<Name, nat>, w: seq<Warning>)
    requires Built(successors, inDegree, wanted) && wanted <= units.Keys && name in wanted
    ensures Built(s, d, wanted)
    ensures forall a, b :: Has(s, a, b) <==>
              Has(successors, a, b) || (a in wanted && b in wanted && Declares(units, name, a, b))
    ensures forall x :: x in w <==>
              x in warnings || Misses(units, name, units[name].deps.after + units[name].deps.before, x)
  {
    var unit := units[name];
    s, d, w := AddAfter(units, wanted, name, unit.deps.after, successors, inDegree, warnings);
    s, d, w := AddBefore(units, wanted, name, unit.deps.before, s, d, w);
    if unit.IsSocket() {
      s, d := AddEdge(wanted, name, unit.kind.activates, s, d);
    }
  }

  /** The declarations of the first units of the start set, walked in name order. */
  ghost predicate DeclaredSoFar(units: UnitSet, wanted: set<Name>, names: seq<Name>, successors: Successors)
  {
    forall a, b :: Has(successors, a, b) <==>
      a in wanted && b in wanted &&
      ((a in names && Declares(units, a, a, b)) || (b in names && Declares(units, b, a, b)))
  }

  ghost predicate WarnedSoFar(units: UnitSet, names: seq<Name>, before: seq<Warning>, after: seq<Warning>)
  {
    forall x :: x in after <==>
      x in before ||
      (x.MissingOrdering? && x.who in names && x.who in units &&
       Misses(units, x.who, units[x.who].deps.after + units[x.who].deps.before, x))
  }

  lemma OneMoreDeclares(units: UnitSet, wanted: set<Name>, names: seq<Name>, name: Name, s: Successors, t: Successors)
    requires DeclaredSoFar(units, wanted, names, s)
    requires forall a, b :: Has(t, a, b) <==>
               Has(s, a, b) || (a in wanted && b in wanted && Declares(units, name, a, b))
    ensures DeclaredSoFar(units, wanted, names + [name], t)
  {
    forall a, b ensures Has(t, a, b) <==>
        a in wanted && b in wanted &&
        ((a in names + [name] && Declares(units, a, a, b)) || (b in names + [name] && Declares(units, b, a, b)))
    {
      assert Declares(units, name, a, b) ==> name == a || name == b;
    }
  }

  lemma OneMoreWarns(
      units: UnitSet, names: seq<Name>, name: Name, before: seq<Warning>, w: seq<Warning>, more: seq<Warning>)
    requires WarnedSoFar(units, names, before, w) && name in units
    requires forall x ::
               x in more <==> x in w || Misses(units, name, units[name].deps.after + units[name].deps.before, x)
    ensures WarnedSoFar(units, names + [name], before, more)
  {
  }

  lemma NothingDeclared(units: UnitSet, wanted: set<Name>, names: seq<Name>, warnings: seq<Warning>)
    ensures Built(map[], map n | n in wanted :: 0 as nat, wanted)
    ensures DeclaredSoFar(units, wanted, names[..0], map[]) && WarnedSoFar(units, names[..0], warnings, warnings)
  {
    assert forall b | b in wanted :: Into(map[], b) == {};
  }

  lemma AllDeclared(units: UnitSet, wanted: set<Name>, names: seq<Name>, s: Successors)
    requires DeclaredSoFar(units, wanted, names, s) && forall n | n in wanted :: n in names
    ensures forall a, b :: Has(s, a, b) <==> (a, b) in Ordering(units, wanted)
  {
  }

  method BuildEdges(units: UnitSet, wanted: set<Name>, warnings: seq<Warning>)
    returns (s: Successors, d: map<Name, nat>, w: seq<Warning>)
    requires wanted <= units.Keys
    ensures Built(s, d, wanted)
    ensures forall a, b :: Has(s, a, b) <==> (a, b) in Ordering(units, wanted)
    ensures WarnedSoFar(units, Sorted(wanted), warnings, w)
  {
    hide DeclaredSoFar, WarnedSoFar, Built;
    s, d, w := map[], map n | n in wanted :: 0 as nat, warnings;
    var names := Sorted(wanted);
    NothingDeclared(units, wanted, names, warnings);
    for i := 0 to |names|
      invariant Built(s, d, wanted)
      invariant DeclaredSoFar(units, wanted, names[..i], s)
      invariant WarnedSoFar(units, names[..i], warnings, w)
    {
      TakeOneMore(names, i);
      ghost var sofar, warned := s, w;
      s, d, w := DeclareEdges(units, wanted, names[i], s, d, w);
      OneMoreDeclares(units, wanted, names[..i], names[i], sofar, s);
      OneMoreWarns(units, names[..i], names[i], warnings, warned, w);
    }
    TakeAll(names);
    AllDeclared(units, wanted, names, s);
  }
}
