/**
 * The feature table: saving a feature without an order gives it the
 * next order after the largest stored one; features are listed by
 * ascending order.
 */
module Features {
  import opened Wrappers
  import opened Tables

  datatype Feature = Feature(
    id: nat, title: string, subtitle: Option<string>, alias: string,
    description: Option<string>, icon: Option<string>, order: Option<nat>)

  /** Max("order") over the table: the largest order that is set, or None
      when no row has one. */
  function MaxOrder(features: seq<Feature>): (m: Option<nat>)
    ensures m.None? <==> forall i :: 0 <= i < |features| ==> features[i].order.None?
    ensures m.Some? ==> forall i :: 0 <= i < |features| && features[i].order.Some? ==>
      features[i].order.value <= m.value
    ensures m.Some? ==> exists i :: 0 <= i < |features| && features[i].order == m
  {
    if features == [] then None
    else
      var rest := MaxOrder(features[1..]);
      var here := features[0].order;
      var m :=
        if here.None? then rest
        else if rest.None? || rest.value < here.value then here
        else rest;
      assert m.Some? && m == rest ==> exists i :: 1 <= i < |features| && features[i].order == m by {
        if m.Some? && m == rest {
          var k :| 0 <= k < |features[1..]| && features[1..][k].order == m;
          assert features[k + 1].order == m;
        }
      }
      m
  }

  /** The order save() assigns when none is given: the largest stored
      order plus one, 1 on an empty table or when the largest is 0. */
  function NextOrder(features: seq<Feature>): (n: nat)
    ensures n >= 1
    ensures forall i :: 0 <= i < |features| && features[i].order.Some? ==> features[i].order.value < n
  {
    MaxOrder(features).GetOr(0) + 1
  }

  /** With no order stored, or none above 0, the automatic order is 1. */
  lemma FirstOrderIsOne(features: seq<Feature>)
    requires forall i :: 0 <= i < |features| ==> features[i].order in {None, Some(0)}
    ensures NextOrder(features) == 1
  {
  }

  /** Rows listed by ascending order (Meta.ordering); a row without order
      sorts before every row with one. */
  function OrderKey(f: Feature): int { if f.order.Some? then f.order.value else -1 }

  function FeatureList(features: seq<Feature>): (r: seq<Feature>)
    ensures SortedBy(r, OrderKey) && multiset(r) == multiset(features)
  {
    SortBy(features, OrderKey)
  }

  function IndexOfId(features: seq<Feature>, id: nat): (r: Option<nat>)
    ensures r.Some? ==> r.value < |features| && features[r.value].id == id
    ensures r.None? ==> forall i :: 0 <= i < |features| ==> features[i].id != id
  {
    FirstIndex(features, (f: Feature) => f.id == id)
  }

  class FeatureTable {
    var features: seq<Feature>

    constructor ()
      ensures features == []
    {
      features := [];
    }

    /** Feature.save: a missing order becomes NextOrder of the table as it
        was; a given order is kept, even when another row has it. The row
        with the same id is then replaced, or the feature is appended when
        there is none; no other row changes. */
    method Save(f: Feature) returns (saved: Feature)
      modifies this
      ensures f.order.Some? ==> saved == f
      ensures f.order.None? ==> saved == f.(order := Some(NextOrder(old(features))))
      ensures IndexOfId(old(features), f.id).Some? ==>
        features == old(features)[IndexOfId(old(features), f.id).value := saved]
      ensures IndexOfId(old(features), f.id).None? ==> features == old(features) + [saved]
    {
      saved := f;
      if f.order.None? {
        var last := MaxOrder(features).GetOr(0);
        saved := f.(order := Some(last + 1));
      }
      var row := IndexOfId(features, f.id);
      if row.Some? {
        features := features[row.value := saved];
      } else {
        features := features + [saved];
      }
    }
  }
}
