/** The loops that call `Entry._set_api_data` once per list element: the item loop
    of the `Playlist.videos` job (`_set_api_data(['title'], item)` on each item's
    video) and `create_object` in `Entry.search` (the search fields on each result's
    entity).  Their effect on the futures of every entity is a fold of single
    `_set_api_data` calls over a map from entity to futures. */
module Fills {
  import opened Wrappers
  import opened Items
  import opened Entries

  /** What one `_set_api_data(fields, item)` call is asked to do. */
  datatype Fill = Fill(fields: seq<Field>, item: Item)

  predicate ItemFills(fills: seq<Fill>) {
    forall i, k :: 0 <= i < |fills| && k in fills[i].fields ==> IsItemField(k)
  }

  /** `_set_api_data` on `e`, seen on the futures of every entity: the futures `cells`
      records for `e` (none for an entity made since) become what the call leaves;
      the second component is false where it raises. */
  function FillStep(cells: map<Entry, Cells>, e: Entry, f: Fill, maxVideos: nat): (r: (map<Entry, Cells>, bool))
    requires forall k :: k in f.fields ==> IsItemField(k)
    ensures r.0.Keys == cells.Keys + {e}
    ensures forall x :: x in cells && x != e ==> r.0[x] == cells[x]
  {
    var (c, ok) := ApplyFields(BaseOf(cells, e), e.kind, f.fields, Some(f.item), maxVideos);
    (cells[e := c], ok)
  }

  /** The futures of every entity once the i-th fill has been applied to `es[i]`, in
      order, starting from `before`. */
  function FillAll(before: map<Entry, Cells>, es: seq<Entry>, fills: seq<Fill>, maxVideos: nat): (r: map<Entry, Cells>)
    requires |es| <= |fills| && ItemFills(fills)
    ensures r.Keys == before.Keys + (set e | e in es)
    decreases |es|
  {
    if es == [] then before
    else
      var n := |es| - 1;
      assert es == es[..n] + [es[n]];
      FillStep(FillAll(before, es[..n], fills, maxVideos), es[n], fills[n], maxVideos).0
  }

  /** None of those calls raised. */
  predicate FillsRun(before: map<Entry, Cells>, es: seq<Entry>, fills: seq<Fill>, maxVideos: nat)
    requires |es| <= |fills| && ItemFills(fills)
    decreases |es|
  {
    es == []
    || var n := |es| - 1;
       FillsRun(before, es[..n], fills, maxVideos)
       && FillStep(FillAll(before, es[..n], fills, maxVideos), es[n], fills[n], maxVideos).1
  }

  /** One more element: the loop goes on with one more call. */
  lemma FillAllSnoc(before: map<Entry, Cells>, es: seq<Entry>, v: Entry, fills: seq<Fill>, maxVideos: nat)
    requires |es| < |fills| && ItemFills(fills)
    ensures var step := FillStep(FillAll(before, es, fills, maxVideos), v, fills[|es|], maxVideos);
            FillAll(before, es + [v], fills, maxVideos) == step.0
            && (FillsRun(before, es + [v], fills, maxVideos) <==> FillsRun(before, es, fills, maxVideos) && step.1)
  {
    assert (es + [v])[..|es|] == es;
  }

  /** An entity met twice is asked for the same fields both times. */
  predicate SameFields(es: seq<Entry>, fills: seq<Fill>)
    requires |es| <= |fills|
  {
    forall i, j :: 0 <= i < |es| && 0 <= j < |es| && es[i] == es[j] ==> fills[i].fields == fills[j].fields
  }

  /** Entities not in `es` keep the futures `before` records. */
  lemma {:induction false} FillAllOthers(before: map<Entry, Cells>, es: seq<Entry>, fills: seq<Fill>, maxVideos: nat)
    requires |es| <= |fills| && ItemFills(fills)
    ensures forall e :: e in before && e !in es ==> FillAll(before, es, fills, maxVideos)[e] == before[e]
    decreases |es|
  {
    if es != [] {
      var n := |es| - 1;
      FillAllOthers(before, es[..n], fills, maxVideos);
      assert es == es[..n] + [es[n]];
    }
  }

  /** No call overwrites a future that was set: every future set in `before` holds its
      value at the end. */
  lemma {:induction false} FillAllKeepsSet(before: map<Entry, Cells>, es: seq<Entry>, fills: seq<Fill>, maxVideos: nat)
    requires |es| <= |fills| && ItemFills(fills)
    ensures forall e :: e in before ==> KeepsSet(before[e], FillAll(before, es, fills, maxVideos)[e])
    decreases |es|
  {
    if es != [] {
      var n := |es| - 1;
      var mid := FillAll(before, es[..n], fills, maxVideos);
      FillAllKeepsSet(before, es[..n], fills, maxVideos);
      FillStepKeepsSet(mid, es[n], fills[n], maxVideos);
      forall e | e in before ensures KeepsSet(before[e], FillAll(before, es, fills, maxVideos)[e]) {
        KeepsSetTrans(before[e], mid[e], FillStep(mid, es[n], fills[n], maxVideos).0[e]);
      }
    }
  }

  /** One call keeps every future that was set, on every entity. */
  lemma FillStepKeepsSet(cells: map<Entry, Cells>, e: Entry, f: Fill, maxVideos: nat)
    requires forall k :: k in f.fields ==> IsItemField(k)
    ensures forall x :: x in cells ==> KeepsSet(cells[x], FillStep(cells, e, f, maxVideos).0[x])
  {
    ApplyKeepsSet(BaseOf(cells, e), e.kind, f.fields, Some(f.item), maxVideos);
    ApplyKeepsFutures(BaseOf(cells, e), e.kind, f.fields, Some(f.item), maxVideos);
  }

  /** Each entity of `es` holds in `r` what the fill at its FIRST occurrence made of the
      futures `before` records for it, with those fields set. */
  predicate FirstFilled(before: map<Entry, Cells>, es: seq<Entry>, fills: seq<Fill>, maxVideos: nat, r: map<Entry, Cells>)
    requires |es| <= |fills| && ItemFills(fills)
  {
    forall e :: e in es ==>
      var f := fills[FirstIndex(es, e)];
      e in r && r[e] == ApplyFields(BaseOf(before, e), e.kind, f.fields, Some(f.item), maxVideos).0
      && forall k :: k in f.fields ==> IsSet(r[e], k)
  }

  /** Without a raise, each entity holds what the fill at its first occurrence made of
      the futures `before` records for it; later occurrences find those fields set and
      change nothing. */
  lemma {:induction false} FillsRunFirst(before: map<Entry, Cells>, es: seq<Entry>, fills: seq<Fill>, maxVideos: nat)
    requires |es| <= |fills| && ItemFills(fills) && SameFields(es, fills)
    requires FillsRun(before, es, fills, maxVideos)
    ensures FirstFilled(before, es, fills, maxVideos, FillAll(before, es, fills, maxVideos))
    decreases |es|
  {
    if es != [] {
      var n := |es| - 1;
      var init, v := es[..n], es[n];
      assert es == init + [v];
      assert SameFields(init, fills);
      FillsRunFirst(before, init, fills, maxVideos);
      if v in init {
        FirstFilledSeen(before, init, v, fills, maxVideos);
      } else {
        FirstFilledNew(before, init, v, fills, maxVideos);
      }
    }
  }

  /** A call on an entity whose asked fields are all set changes nothing. */
  lemma FillStepIdle(cells: map<Entry, Cells>, e: Entry, f: Fill, maxVideos: nat)
    requires forall k :: k in f.fields ==> IsItemField(k)
    requires e in cells && forall k :: k in f.fields ==> IsSet(cells[e], k)
    ensures FillStep(cells, e, f, maxVideos).0 == cells
  {
    ApplyAllSet(cells[e], e.kind, f.fields, Some(f.item), maxVideos);
    assert cells[e := cells[e]] == cells;
  }

  /** A second occurrence finds its fields set and leaves every future as it is. */
  lemma FirstFilledSeen(before: map<Entry, Cells>, init: seq<Entry>, v: Entry, fills: seq<Fill>, maxVideos: nat)
    requires |init| < |fills| && ItemFills(fills) && SameFields(init + [v], fills) && v in init
    requires FirstFilled(before, init, fills, maxVideos, FillAll(before, init, fills, maxVideos))
    ensures FillAll(before, init + [v], fills, maxVideos) == FillAll(before, init, fills, maxVideos)
    ensures FirstFilled(before, init + [v], fills, maxVideos, FillAll(before, init + [v], fills, maxVideos))
  {
    var es, n := init + [v], |init|;
    assert es[..n] == init;
    var mid := FillAll(before, init, fills, maxVideos);
    var j := FirstIndex(init, v);
    assert es[j] == es[n];
    FillStepIdle(mid, v, fills[n], maxVideos);
    FirstFilledAgain(before, init, v, fills, maxVideos, mid);
  }

  /** `FirstFilled` holds on for one more element that was met before. */
  lemma FirstFilledAgain(before: map<Entry, Cells>, init: seq<Entry>, v: Entry, fills: seq<Fill>, maxVideos: nat,
                         r: map<Entry, Cells>)
    requires |init| < |fills| && ItemFills(fills) && v in init
    requires FirstFilled(before, init, fills, maxVideos, r)
    ensures FirstFilled(before, init + [v], fills, maxVideos, r)
  {
    forall e | e in init + [v] ensures FirstIndex(init + [v], e) == FirstIndex(init, e) {
      FirstIndexSnoc(init, v, e);
    }
  }

  /** A first occurrence fills the futures `before` records for its entity. */
  lemma FirstFilledNew(before: map<Entry, Cells>, init: seq<Entry>, v: Entry, fills: seq<Fill>, maxVideos: nat)
    requires |init| < |fills| && ItemFills(fills) && v !in init
    requires FirstFilled(before, init, fills, maxVideos, FillAll(before, init, fills, maxVideos))
    requires FillStep(FillAll(before, init, fills, maxVideos), v, fills[|init|], maxVideos).1
    ensures FirstFilled(before, init + [v], fills, maxVideos, FillAll(before, init + [v], fills, maxVideos))
  {
    var mid := FillAll(before, init, fills, maxVideos);
    FillAllSnoc(before, init, v, fills, maxVideos);
    FillAllOthers(before, init, fills, maxVideos);
    FillStepFresh(before, mid, v, fills[|init|], maxVideos);
    FirstFilledExtend(before, init, v, fills, maxVideos, mid, FillStep(mid, v, fills[|init|], maxVideos).0);
  }

  /** A call that does not raise, on an entity whose futures are those `before`
      records, sets the asked fields of what `before` records. */
  lemma FillStepFresh(before: map<Entry, Cells>, cells: map<Entry, Cells>, v: Entry, f: Fill, maxVideos: nat)
    requires forall k :: k in f.fields ==> IsItemField(k)
    requires BaseOf(cells, v) == BaseOf(before, v) && FillStep(cells, v, f, maxVideos).1
    ensures var r := FillStep(cells, v, f, maxVideos).0;
            v in r && r[v] == ApplyFields(BaseOf(before, v), v.kind, f.fields, Some(f.item), maxVideos).0
            && forall k :: k in f.fields ==> IsSet(r[v], k)
  {
    ApplyCompletes(BaseOf(before, v), v.kind, f.fields, Some(f.item), maxVideos);
  }

  /** `FirstFilled` extends to one more element met for the first time, in a map that
      agrees with the old one on the elements before it. */
  lemma FirstFilledExtend(before: map<Entry, Cells>, init: seq<Entry>, v: Entry, fills: seq<Fill>, maxVideos: nat,
                          mid: map<Entry, Cells>, r: map<Entry, Cells>)
    requires |init| < |fills| && ItemFills(fills) && v !in init
    requires FirstFilled(before, init, fills, maxVideos, mid)
    requires forall e :: e in init ==> e in r && r[e] == mid[e]
    requires var f := fills[|init|];
             v in r && r[v] == ApplyFields(BaseOf(before, v), v.kind, f.fields, Some(f.item), maxVideos).0
             && forall k :: k in f.fields ==> IsSet(r[v], k)
    ensures FirstFilled(before, init + [v], fills, maxVideos, r)
  {
    forall e | e in init + [v] ensures FirstIndex(init + [v], e) == if e in init then FirstIndex(init, e) else |init| {
      FirstIndexSnoc(init, v, e);
    }
  }
}
