/** Kahn's algorithm, and the cycle walk for its error message. */
module Kahn {
  import opened Names
  import opened Graph
  import opened OrderingEdges

  function Elements(q: seq<Name>): (s: set<Name>)
    ensures forall n :: n in s <==> n in q
  {
    set n | n in q
  }

  /** What each unit is still waiting for once `done` have started. */
  ghost predicate Remains(successors: Successors, wanted: set<Name>, done: seq<Name>, remaining: map<Name, nat>)
  {
    && remaining.Keys == wanted
    && (forall b | b in wanted :: remaining[b] == |Into(successors, b) - Elements(done)|)
  }

  /**
   * `placed` is the order so far followed by the ready queue; the first `k` are
   * done. A unit is placed exactly when nothing is left before it, and nothing
   * done had anything left before it.
   */
  ghost predicate Progress(
      successors: Successors, wanted: set<Name>, placed: seq<Name>, k: nat, remaining: map<Name, nat>)
  {
    && k <= |placed| && Distinct(placed)
    && (forall i | 0 <= i < |placed| :: placed[i] in wanted)
    && remaining.Keys == wanted
    && (forall b | b in wanted :: remaining[b] == 0 <==> b in placed)
    && (forall i | 0 <= i < k :: Into(successors, placed[i]) <= Elements(placed[..i]))
  }

  /** Half way through a unit's successors: those `seen` have been told it is done, the rest not yet. */
  ghost predicate PartlyReleased(
      successors: Successors, wanted: set<Name>, done: seq<Name>, name: Name, seen: seq<Name>,
      remaining: map<Name, nat>)
  {
    && remaining.Keys == wanted
    && (forall b | b in wanted ::
          remaining[b] ==
          |Into(successors, b) - Elements(done)| + if Has(successors, name, b) && b !in seen then 1 else 0)
  }

  lemma BeforeRelease(successors: Successors, wanted: set<Name>, done: seq<Name>, name: Name, remaining: map<Name, nat>)
    requires Remains(successors, wanted, done, remaining) && name !in done
    ensures PartlyReleased(successors, wanted, done + [name], name, [], remaining)
  {
    forall b | b in wanted
      ensures |Into(successors, b) - Elements(done)|
              == |Into(successors, b) - Elements(done + [name])| + if Has(successors, name, b) then 1 else 0
    {
      var left := Into(successors, b) - Elements(done + [name]);
      if Has(successors, name, b) {
        assert Into(successors, b) - Elements(done) == left + {name};
      } else {
        assert Into(successors, b) - Elements(done) == left;
      }
    }
  }

  lemma ReleaseOne(
      successors: Successors, wanted: set<Name>, done: seq<Name>, name: Name, seen: seq<Name>,
      remaining: map<Name, nat>, b: Name)
    requires PartlyReleased(successors, wanted, done, name, seen, remaining)
    requires b in wanted && Has(successors, name, b) && b !in seen
    ensures remaining[b] >= 1
    ensures PartlyReleased(successors, wanted, done, name, seen + [b], remaining[b := remaining[b] - 1])
  {
  }

  lemma AfterRelease(
      successors: Successors, wanted: set<Name>, done: seq<Name>, name: Name, seen: seq<Name>,
      remaining: map<Name, nat>)
    requires PartlyReleased(successors, wanted, done, name, seen, remaining)
    requires forall b | Has(successors, name, b) :: b in seen
    ensures Remains(successors, wanted, done, remaining)
  {
  }

  lemma NothingLeft(successors: Successors, wanted: set<Name>, done: seq<Name>, remaining: map<Name, nat>, n: Name)
    requires Remains(successors, wanted, done, remaining) && n in wanted && remaining[n] == 0
    ensures Into(successors, n) <= Elements(done)
  {
    var waiting := Into(successors, n) - Elements(done);
    assert |waiting| == 0;
    assert forall a | a in Into(successors, n) && a !in Elements(done) :: a in waiting;
  }

  /** A ready unit has everything before it done already. */
  lemma ReadyIsFree(successors: Successors, wanted: set<Name>, placed: seq<Name>, k: nat, remaining: map<Name, nat>)
    requires Progress(successors, wanted, placed, k, remaining) && k < |placed|
    requires Remains(successors, wanted, placed[..k], remaining)
    ensures Progress(successors, wanted, placed, k + 1, remaining)
    ensures placed[k] !in placed[..k] && placed[..k + 1] == placed[..k] + [placed[k]]
  {
    TakeOneMore(placed, k);
    NothingLeft(successors, wanted, placed[..k], remaining, placed[k]);
  }

  lemma Placing(
      successors: Successors, wanted: set<Name>, placed: seq<Name>, k: nat, remaining: map<Name, nat>, b: Name,
      degree: nat)
    requires Progress(successors, wanted, placed, k, remaining)
    requires b in wanted && remaining[b] == degree + 1
    ensures Progress(successors, wanted, if degree == 0 then placed + [b] else placed, k, remaining[b := degree])
  {
    assert b !in placed;
    assert forall i | 0 <= i < k :: (placed + [b])[..i] == placed[..i];
  }

  /** Tell every successor of a finished unit; those with nothing left before them become ready, in name order. */
  method Release(
      successors: Successors, wanted: set<Name>, ghost placed: seq<Name>, ghost k: nat, name: Name,
      remaining: map<Name, nat>)
    returns (freed: seq<Name>, left: map<Name, nat>)
    requires forall a, b | Has(successors, a, b) :: a in wanted && b in wanted
    requires Progress(successors, wanted, placed, k, remaining) && k < |placed| && placed[k] == name
    requires Remains(successors, wanted, placed[..k], remaining)
    ensures Progress(successors, wanted, placed + freed, k + 1, left)
    ensures Remains(successors, wanted, placed[..k + 1], left)
  {
    freed, left := [], remaining;
    ReadyIsFree(successors, wanted, placed, k, remaining);
    BeforeRelease(successors, wanted, placed[..k], name, remaining);
    AppendNothing(placed);
    var next := if name in successors then Sorted(successors[name]) else [];
    for i := 0 to |next|
      invariant Progress(successors, wanted, placed + freed, k + 1, left)
      invariant PartlyReleased(successors, wanted, placed[..k + 1], name, next[..i], left)
    {
      TakeOneMore(next, i);
      var b := next[i];
      assert Has(successors, name, b) && b !in next[..i];
      ReleaseOne(successors, wanted, placed[..k + 1], name, next[..i], left, b);
      var degree := if left[b] == 0 then 0 else left[b] - 1;
      Placing(successors, wanted, placed + freed, k + 1, left, b, degree);
      left := left[b := degree];
      if degree == 0 {
        AppendInParts(placed, freed, [b]);
        freed := freed + [b];
      }
    }
    TakeAll(next);
    AfterRelease(successors, wanted, placed[..k + 1], name, next, left);
  }

  lemma NothingDone(successors: Successors, inDegree: map<Name, nat>, wanted: set<Name>, ready: seq<Name>)
    requires Built(successors, inDegree, wanted) && Distinct(ready)
    requires forall n :: n in ready <==> n in wanted && inDegree[n] == 0
    ensures Progress(successors, wanted, ready, 0, inDegree) && Remains(successors, wanted, [], inDegree)
  {
    forall b | b in wanted ensures Into(successors, b) - Elements([]) == Into(successors, b) {
    }
  }

  /** Drain the ready queue. What is left over is what a cycle holds up. */
  method Drain(successors: Successors, inDegree: map<Name, nat>, wanted: set<Name>)
    returns (order: seq<Name>, remaining: map<Name, nat>)
    requires Built(successors, inDegree, wanted)
    ensures Remains(successors, wanted, order, remaining) && Progress(successors, wanted, order, |order|, remaining)
  {
    var ready := Sorted(set n | n in wanted && inDegree[n] == 0);
    order, remaining := [], inDegree;
    ghost var placed := ready;
    AppendNothing(ready);
    NothingDone(successors, inDegree, wanted, ready);
    while ready != []
      invariant placed == order + ready
      invariant Progress(successors, wanted, placed, |order|, remaining)
      invariant Remains(successors, wanted, order, remaining)
      decreases |wanted| - |order|
    {
      var name := ready[0];
      MoveHead(order, ready);
      DistinctFits(placed, wanted);
      var freed;
      freed, remaining := Release(successors, wanted, placed, |order|, name, remaining);
      AppendInParts(order + [name], ready[1..], freed);
      placed := placed + freed;
      ready := ready[1..] + freed;
      order := order + [name];
    }
    AppendNothing(order);
  }
}
