/**
 * The analysis stage: the tile indices the vision service proposes are
 * coerced into the round's index domain, filtered by the question's
 * categories, clicked, and then checked and repaired in a bounded
 * verify/repair loop.
 */
module StageAnalyze {

  import opened Wrappers
  import opened Strings
  import opened Values
  import opened Sorting
  import opened Core
  import opened StageGrid
  import opened StageCheckboxQuestion

  const LIVING_CATEGORIES: set<string> := {"bird", "mammal", "insect", "fish", "reptile"}

  /** Repair rounds after the first check; the loop makes at most MAX_FIX_ROUNDS + 1 attempts. */
  const MAX_FIX_ROUNDS: nat := 2

  // ---------------------------------------------------------------------------
  // _sanitize_indexes

  /**
   * What one raw value becomes: its int() if that is an index of the round,
   * otherwise the index at that position of `order`, otherwise nothing.
   */
  function Accept(v: Value, order: seq<int>): (r: Option<int>)
    ensures r.Some? ==> r.value in order
  {
    match ToInt(v)
    case Err(_) => None
    case Ok(i) =>
      if i in order then Some(i)
      else if 0 <= i < |order| then Some(order[i])
      else None
  }

  /** The values `keep` gives for `items`, in input order, repeats included. */
  function Kept<T>(items: seq<T>, keep: T -> Option<int>): seq<int> {
    if items == [] then []
    else
      var init := Kept(items[..|items| - 1], keep);
      match keep(items[|items| - 1])
      case None => init
      case Some(i) => init + [i]
  }

  /** A value is kept iff `keep` gives it for some item. */
  lemma {:induction false} KeptMeaning<T>(items: seq<T>, keep: T -> Option<int>, i: int)
    ensures i in Kept(items, keep) <==> exists k :: 0 <= k < |items| && keep(items[k]) == Some(i)
  {
    if items != [] {
      var n := |items| - 1;
      var init := items[..n];
      KeptMeaning(init, keep, i);
      if i in Kept(items, keep) {
        if i in Kept(init, keep) {
          var k :| 0 <= k < n && keep(init[k]) == Some(i);
          assert init[k] == items[k];
        }
      } else {
        forall k | 0 <= k < |items|
          ensures keep(items[k]) != Some(i)
        {
          if k < n {
            assert init[k] == items[k];
          }
        }
      }
    }
  }

  /** The accepted values of `items`, in input order, repeats included. */
  function Accepted(items: seq<Value>, order: seq<int>): seq<int> {
    Kept(items, v => Accept(v, order))
  }

  /** An index is accepted iff some raw value is accepted as it; every accepted index is one of `order`. */
  lemma AcceptedMeaning(items: seq<Value>, order: seq<int>, i: int)
    ensures i in Accepted(items, order) <==> exists k :: 0 <= k < |items| && Accept(items[k], order) == Some(i)
    ensures i in Accepted(items, order) ==> i in order
  {
    KeptMeaning(items, v => Accept(v, order), i);
  }

  /** Every accepted index is one of `order`. */
  lemma AcceptedWithin(items: seq<Value>, order: seq<int>)
    ensures Elems(Accepted(items, order)) <= Elems(order)
  {
    forall i | i in Accepted(items, order)
      ensures i in order
    {
      AcceptedMeaning(items, order, i);
    }
  }

  /** _sanitize_indexes on `values or []`: iterating a truthy non-iterable raises TypeError. */
  function SanitizedIndexes(values: Value, order: seq<int>): (r: Result<seq<int>>)
    ensures r.Err? <==> IterateOrEmpty(values).Err?
    ensures r.Err? ==> r.error == TypeError
    ensures r.Ok? ==> StrictlyAscending(r.value) && Elems(r.value) <= Elems(order)
    ensures r.Ok? ==> Elems(r.value) == Elems(Accepted(IterateOrEmpty(values).value, order))
  {
    match IterateOrEmpty(values)
    case Err(e) => Err(e)
    case Ok(items) =>
      AcceptedWithin(items, order);
      Ok(SortedUnique(Accepted(items, order)))
  }

  /** Accepting one more raw value appends its index, if it has one. */
  lemma AcceptedStep(items: seq<Value>, k: nat, order: seq<int>)
    requires k < |items|
    ensures Accepted(items[..k + 1], order) ==
      match Accept(items[k], order)
      case None => Accepted(items[..k], order)
      case Some(i) => Accepted(items[..k], order) + [i]
  {
    assert items[..k + 1][..k] == items[..k];
  }

  /** The loop of _sanitize_indexes, which appends each accepted index the first time it is met. */
  method SanitizeIndexes(values: Value, order: seq<int>) returns (r: Result<seq<int>>)
    ensures r == SanitizedIndexes(values, order)
  {
    var iterated := IterateOrEmpty(values);
    if iterated.Err? {
      return Err(iterated.error);
    }
    var result := CollectAccepted(iterated.value, order);
    AscendingUnique(SortedUnique(result), SortedUnique(Accepted(iterated.value, order)));
    return Ok(SortedUnique(result));
  }

  /** The accepted indexes of `items`, each once, in the order they are first met. */
  method CollectAccepted(items: seq<Value>, order: seq<int>) returns (result: seq<int>)
    ensures Elems(result) == Elems(Accepted(items, order))
    ensures forall i, j :: 0 <= i < j < |result| ==> result[i] != result[j]
  {
    result := [];
    for k := 0 to |items|
      invariant Elems(result) == Elems(Accepted(items[..k], order))
      invariant forall i, j :: 0 <= i < j < |result| ==> result[i] != result[j]
    {
      AcceptedStep(items, k, order);
      var accepted := AcceptIndex(items[k], order);
      if accepted.None? {
        continue;
      }
      var idx := accepted.value;
      ElemsAppend(Accepted(items[..k], order), idx);
      if idx !in result {
        ElemsAppend(result, idx);
        result := result + [idx];
      }
    }
    assert items[..|items|] == items;
  }

  /** One pass of the loop body: int() of the value, then the lookup in `order`. */
  method AcceptIndex(v: Value, order: seq<int>) returns (idx: Option<int>)
    ensures idx == Accept(v, order)
  {
    var converted := ToInt(v);
    if converted.Err? {
      return None;
    }
    var i := converted.value;
    if i in order {
      return Some(i);
    }
    if 0 <= i < |order| {
      return Some(order[i]);
    }
    return None;
  }

  /**
   * A member of `order` is kept as it is; any other int() in range is read
   * as a position in `order`; the rest is dropped.
   */
  lemma SanitizeRules(v: Value, order: seq<int>)
    ensures ToInt(v).Err? ==> Accept(v, order).None?
    ensures ToInt(v).Ok? && ToInt(v).value in order ==> Accept(v, order) == Some(ToInt(v).value)
    ensures ToInt(v).Ok? && ToInt(v).value !in order ==>
      (Accept(v, order).Some? <==> 0 <= ToInt(v).value < |order|)
    ensures ToInt(v).Ok? && ToInt(v).value !in order && 0 <= ToInt(v).value < |order| ==>
      Accept(v, order) == Some(order[ToInt(v).value])
  {
  }

  /** With order [0, 2, 5, 7]: 1 is position 1, 2 is a member, 9 is out of range and null has no int(). */
  lemma ExampleAcceptOutcomes()
    ensures Accept(Int(1), [0, 2, 5, 7]) == Some(2) && Accept(Int(2), [0, 2, 5, 7]) == Some(2)
    ensures Accept(Int(9), [0, 2, 5, 7]) == None && Accept(Null, [0, 2, 5, 7]) == None
  {
    assert 1 !in [0, 2, 5, 7] && 9 !in [0, 2, 5, 7];
  }

  lemma ExampleAccepted()
    ensures Accepted([Int(1), Int(2), Int(9), Null], [0, 2, 5, 7]) == [2, 2]
  {
    var order := [0, 2, 5, 7];
    var items := [Int(1), Int(2), Int(9), Null];
    ExampleAcceptOutcomes();
    assert items[..0] == [] && items[..4] == items;
    assert Accepted([], order) == [];
    AcceptedStep(items, 0, order);
    AcceptedStep(items, 1, order);
    AcceptedStep(items, 2, order);
    AcceptedStep(items, 3, order);
  }

  /** With order [0, 2, 5, 7]: 1 is read as position 1, 2 is kept, 9 and null are dropped. */
  lemma SanitizeExample()
    ensures SanitizedIndexes(List([Int(1), Int(2), Int(9), Null]), [0, 2, 5, 7]) == Ok([2])
  {
    ExampleAccepted();
    AscendingUnique(SortedUnique([2, 2]), [2]);
  }

  // ---------------------------------------------------------------------------
  // _verify_with_vision (the coercion of the reply)

  /** An empty list sanitizes to no index. */
  lemma EmptyListSanitized(order: seq<int>)
    ensures SanitizedIndexes(List([]), order) == Ok([])
  {
    assert Accepted([], order) == [];
    ElemsEmpty(SortedUnique([]));
  }

  /** What the verifier's reply says after coercion. */
  datatype Verdict = Verdict(correct: seq<int>, selected: seq<int>, ok: bool, reason: string)

  /**
   * A reply that is not a dict reads as {}; both index lists go through
   * _sanitize_indexes, "ok" through bool() and "reason" through strip().
   */
  function VerifyWithVision(resp: Value, order: seq<int>): (r: Result<Verdict>)
    ensures !resp.Dict? ==> r == Ok(Verdict([], [], false, ""))
    ensures r.Err? ==> r.error == TypeError || r.error == AttributeError
    ensures r.Ok? ==>
      && StrictlyAscending(r.value.correct) && Elems(r.value.correct) <= Elems(order)
      && StrictlyAscending(r.value.selected) && Elems(r.value.selected) <= Elems(order)
    ensures resp.Dict? ==>
      (r.Err? <==> || IterateOrEmpty(GetOr(resp.entries, "correct_indexes", List([]))).Err?
                   || IterateOrEmpty(GetOr(resp.entries, "selected_indexes", List([]))).Err?
                   || TextField(resp.entries, "reason").Err?)
    ensures resp.Dict? && r.Ok? ==>
      && SanitizedIndexes(GetOr(resp.entries, "correct_indexes", List([])), order) == Ok(r.value.correct)
      && SanitizedIndexes(GetOr(resp.entries, "selected_indexes", List([])), order) == Ok(r.value.selected)
    ensures resp.Dict? && r.Ok? ==> r.value.ok == Truthy(GetDefault(resp.entries, "ok", Null))
    ensures resp.Dict? && r.Ok? ==> TextField(resp.entries, "reason") == Ok(r.value.reason)
  {
    EmptyListSanitized(order);
    var d := if resp.Dict? then resp.entries else [];
    var correct := SanitizedIndexes(GetOr(d, "correct_indexes", List([])), order);
    var selected := SanitizedIndexes(GetOr(d, "selected_indexes", List([])), order);
    var reason := TextField(d, "reason");
    if correct.Err? then Err(correct.error)
    else if selected.Err? then Err(selected.error)
    else if reason.Err? then Err(reason.error)
    else Ok(Verdict(correct.value, selected.value, Truthy(GetDefault(d, "ok", Null)), reason.value))
  }

  // ---------------------------------------------------------------------------
  // _apply_post_filters

  /** index_to_obj.get(idx): the dict keeps the last object listed under an index. */
  function ObjectAt(objects: seq<GridObject>, idx: int): (r: Option<GridObject>)
    ensures r.None? <==> forall k :: 0 <= k < |objects| ==> objects[k].index != idx
    ensures r.Some? ==> r.value in objects && r.value.index == idx
  {
    if objects == [] then None
    else if objects[|objects| - 1].index == idx then Some(objects[|objects| - 1])
    else
      var r := ObjectAt(objects[..|objects| - 1], idx);
      assert forall k :: 0 <= k < |objects| - 1 ==> objects[..|objects| - 1][k] == objects[k];
      r
  }

  /** set(obj.get("categories") or []) */
  function CatSet(o: GridObject): set<string> {
    Elems(o.tile.categories)
  }

  /** obj.get("norm_label") or normalize_label(obj.get("label") or "") */
  function NormOf(o: GridObject): string {
    if o.tile.normLabel != [] then o.tile.normLabel else NormalizeLabel(o.tile.text)
  }

  /** The tests the object loops apply. */
  datatype Gate =
    | SharesCategory(cats: set<string>)
    | LivingConfident
    | LooksAlike(labels: set<string>, pool: set<string>, ratio: (string, string) -> real)
    | BirdLike

  predicate Passes(o: GridObject, g: Gate) {
    match g
    case SharesCategory(cats) => CatSet(o) * cats != {}
    case LivingConfident => CatSet(o) * LIVING_CATEGORIES != {} && o.tile.conf >= CONF_TILE_LABEL_OK
    case LooksAlike(labels, pool, ratio) =>
      (exists other :: other in labels && other != [] && LabelsSimilar(NormOf(o), other, ratio))
      || CatSet(o) * pool != {}
    case BirdLike =>
      var tileLabel := Lower(o.tile.text);
      || "bird" in o.tile.categories
      || Contains(tileLabel, "птиц") || Contains(tileLabel, "sparrow")
      || Contains(tileLabel, "вороб") || Contains(tileLabel, "голуб")
  }

  /** Some object among the first `n` carries index `i` and passes `g`. */
  predicate SomePasses(objects: seq<GridObject>, n: nat, i: int, g: Gate) {
    exists k :: 0 <= k < n && k < |objects| && objects[k].index == i && Passes(objects[k], g)
  }

  /** The indices of the objects among the first `n` that pass `g`. */
  function Where(objects: seq<GridObject>, n: nat, g: Gate): (r: set<int>)
    requires n <= |objects|
    ensures forall i :: i in r <==> SomePasses(objects, n, i, g)
  {
    set k | 0 <= k < n && Passes(objects[k], g) :: objects[k].index as int
  }

  lemma WhereStep(objects: seq<GridObject>, n: nat, g: Gate)
    requires n < |objects|
    ensures Where(objects, n + 1, g) ==
      Where(objects, n, g) + (if Passes(objects[n], g) then {objects[n].index as int} else {})
  {
  }

  /** The task text and selection criteria, joined by a space and lower-cased. */
  function TaskText(q: Question): string {
    Lower(q.taskText + " " + q.selectionCriteria)
  }

  /** The task asks for every matching tile. */
  predicate IsAllTask(q: Question) {
    var t := TaskText(q);
    Contains(t, " все") || Contains(t, "all") || Contains(t, "кажд") || Contains(t, "всех")
  }

  /** The example shown with the task is a birdhouse. */
  predicate IsBirdhouse(q: Question) {
    var e := Lower(q.exampleContainer);
    Contains(e, "birdhouse") || Contains(e, "скворечн") || Contains(e, "домик для птиц")
  }

  /** Category fallback: with nothing chosen, every object sharing a target category. */
  function CategoryFallback(s: set<int>, objects: seq<GridObject>, target: set<string>): (r: set<int>)
    ensures s != {} || target == {} ==> r == s
    ensures s == {} && target != {} ==>
      forall i :: i in r <==> SomePasses(objects, |objects|, i, SharesCategory(target))
  {
    if s == {} && target != {} then Where(objects, |objects|, SharesCategory(target)) else s
  }

  /** Creature fallback: with nothing chosen and "creature" in the task, every confident living tile. */
  function CreatureFallback(s: set<int>, objects: seq<GridObject>, q: Question): (r: set<int>)
    ensures s != {} || !Contains(TaskText(q), "creature") ==> r == s
    ensures s == {} && Contains(TaskText(q), "creature") ==>
      forall i :: i in r <==> SomePasses(objects, |objects|, i, LivingConfident)
  {
    if s == {} && Contains(TaskText(q), "creature") then Where(objects, |objects|, LivingConfident) else s
  }

  /** _match_cats: the index has an object, meets the targets if any, and avoids the exclusions. */
  predicate MatchCats(objects: seq<GridObject>, idx: int, target: set<string>, exclude: set<string>) {
    match ObjectAt(objects, idx)
    case None => false
    case Some(o) =>
      && (target == {} || CatSet(o) * target != {})
      && (exclude == {} || CatSet(o) * exclude == {})
  }

  /** The category filter, which is dropped when it would leave nothing. */
  function CategoryFilter(s: set<int>, objects: seq<GridObject>, target: set<string>, exclude: set<string>): (r: set<int>)
    ensures r <= s
    ensures s != {} ==> r != {}
    ensures (exists i :: i in s && MatchCats(objects, i, target, exclude)) ==>
      forall i :: i in r <==> i in s && MatchCats(objects, i, target, exclude)
    ensures (forall i :: i in s ==> !MatchCats(objects, i, target, exclude)) ==> r == s
  {
    var filtered := set i | i in s && MatchCats(objects, i, target, exclude);
    assert (exists i :: i in s && MatchCats(objects, i, target, exclude)) ==> filtered != {} by {
      if exists i :: i in s && MatchCats(objects, i, target, exclude) {
        var i :| i in s && MatchCats(objects, i, target, exclude);
        assert i in filtered;
      }
    }
    if filtered != {} then filtered else s
  }

  /** label_pool: the normalised labels of the chosen tiles ("" for an index without an object). */
  function LabelPool(s: set<int>, objects: seq<GridObject>): set<string> {
    set i | i in s :: match ObjectAt(objects, i) case None => NormalizeLabel("") case Some(o) => NormOf(o)
  }

  /** The categories of the object at `idx`, none when there is none. */
  function CatsAt(objects: seq<GridObject>, idx: int): seq<string> {
    match ObjectAt(objects, idx)
    case None => []
    case Some(o) => o.tile.categories
  }

  /** cat_pool: every category of a chosen tile. */
  function CatPool(s: set<int>, objects: seq<GridObject>): set<string> {
    set i, c | i in s && c in CatsAt(objects, i) :: c
  }

  /**
   * "Select all" expansion: for an all-task with something chosen, add every
   * tile whose label resembles a chosen one or which shares a chosen category.
   */
  function Expand(s: set<int>, objects: seq<GridObject>, q: Question, ratio: (string, string) -> real): (r: set<int>)
    ensures s <= r
    ensures !IsAllTask(q) || s == {} ==> r == s
    ensures IsAllTask(q) && s != {} ==> forall i :: i in r <==>
      i in s || SomePasses(objects, |objects|, i, LooksAlike(LabelPool(s, objects), CatPool(s, objects), ratio))
  {
    if IsAllTask(q) && s != {} then
      s + Where(objects, |objects|, LooksAlike(LabelPool(s, objects), CatPool(s, objects), ratio))
    else s
  }

  /** Birdhouse override: exactly the bird tiles, even when there are none. */
  function Birdhouse(s: set<int>, objects: seq<GridObject>, q: Question): (r: set<int>)
    ensures !IsBirdhouse(q) ==> r == s
    ensures IsBirdhouse(q) ==> forall i :: i in r <==> SomePasses(objects, |objects|, i, BirdLike)
  {
    if IsBirdhouse(q) then Where(objects, |objects|, BirdLike) else s
  }

  /** The chosen set after all five filters, before the clamp to the round's indices. */
  function PostFiltered(s: set<int>, objects: seq<GridObject>, q: Question, ratio: (string, string) -> real): set<int> {
    var target := Elems(q.targetCategories);
    var exclude := Elems(q.excludeCategories);
    var fallen := CreatureFallback(CategoryFallback(s, objects, target), objects, q);
    Birdhouse(Expand(CategoryFilter(fallen, objects, target, exclude), objects, q, ratio), objects, q)
  }

  /**
   * The object loops of _apply_post_filters: add the index of every object
   * that passes `g`. An index already chosen is skipped, which leaves the
   * set as it would have been.
   */
  method AddPassing(s: set<int>, objects: seq<GridObject>, g: Gate) returns (chosen: set<int>)
    ensures chosen == s + Where(objects, |objects|, g)
  {
    chosen := s;
    for k := 0 to |objects|
      invariant chosen == s + Where(objects, k, g)
    {
      WhereStep(objects, k, g);
      var o := objects[k];
      if o.index in chosen {
        continue;
      }
      if Passes(o, g) {
        chosen := chosen + {o.index};
      }
    }
  }

  /** The bird_only list of the birdhouse override. */
  method BirdOnly(objects: seq<GridObject>) returns (birdOnly: seq<int>)
    ensures Elems(birdOnly) == Where(objects, |objects|, BirdLike)
  {
    birdOnly := [];
    for k := 0 to |objects|
      invariant Elems(birdOnly) == Where(objects, k, BirdLike)
    {
      WhereStep(objects, k, BirdLike);
      if Passes(objects[k], BirdLike) {
        ElemsAppend(birdOnly, objects[k].index as int);
        birdOnly := birdOnly + [objects[k].index];
      }
    }
  }

  /**
   * _apply_post_filters. The result is sorted, has no repeats and holds only
   * indices of the round.
   */
  method ApplyPostFilters(chosen: seq<int>, objects: seq<GridObject>, q: Question, order: seq<int>,
                          ratio: (string, string) -> real)
    returns (r: seq<int>)
    ensures StrictlyAscending(r)
    ensures Elems(r) == PostFiltered(Elems(chosen), objects, q, ratio) * Elems(order)
  {
    var target := Elems(q.targetCategories);
    var exclude := Elems(q.excludeCategories);
    var chosenSet := Elems(chosen);
    ghost var s0 := chosenSet;
    if chosenSet == {} && target != {} {
      chosenSet := AddPassing(chosenSet, objects, SharesCategory(target));
    }
    assert chosenSet == CategoryFallback(s0, objects, target);
    ghost var s1 := chosenSet;
    if chosenSet == {} && Contains(TaskText(q), "creature") {
      chosenSet := AddPassing(chosenSet, objects, LivingConfident);
    }
    assert chosenSet == CreatureFallback(s1, objects, q);
    var filtered := set i | i in chosenSet && MatchCats(objects, i, target, exclude);
    if filtered != {} {
      chosenSet := filtered;
    }
    ghost var s3 := chosenSet;
    if IsAllTask(q) && chosenSet != {} {
      var labelPool := LabelPool(chosenSet, objects);
      var catPool := CatPool(chosenSet, objects);
      chosenSet := AddPassing(chosenSet, objects, LooksAlike(labelPool, catPool, ratio));
    }
    assert chosenSet == Expand(s3, objects, q, ratio);
    if IsBirdhouse(q) {
      var birdOnly := BirdOnly(objects);
      chosenSet := Elems(birdOnly);
    }
    return SortedMembers(chosenSet, order);
  }

  // ---------------------------------------------------------------------------
  // _click_tiles

  /** What _locate_tiles found for a tile: its match score and centre. */
  datatype Detection = Detection(score: real, center: (int, int))

  datatype TileResult = Skipped | Clicked

  /** One entry of the actions log. */
  datatype ActionRecord = ActionRecord(attempt: nat, action: string, index: int, result: TileResult, score: Option<real>)

  /** A tile is clicked only when it was detected with a score of at least MATCH_THRESHOLD_OBJECT. */
  predicate Clickable(detections: map<int, Detection>, idx: int) {
    idx in detections && detections[idx].score >= MATCH_THRESHOLD_OBJECT
  }

  /** The entry logged for `idx`. */
  function TileAction(idx: int, detections: map<int, Detection>, action: string, attempt: nat): (a: ActionRecord)
    ensures a.index == idx && a.action == action && a.attempt == attempt
    ensures a.result == Clicked <==> Clickable(detections, idx)
    ensures a.score.Some? <==> idx in detections
    ensures idx in detections ==> a.score == Some(detections[idx].score)
  {
    var score := if idx in detections then Some(detections[idx].score) else None;
    ActionRecord(attempt, action, idx, if Clickable(detections, idx) then Clicked else Skipped, score)
  }

  /** One entry per index, in the order of `indexes`. */
  function TileActions(indexes: seq<int>, detections: map<int, Detection>, action: string, attempt: nat): (r: seq<ActionRecord>)
    ensures |r| == |indexes|
    ensures forall k :: 0 <= k < |r| ==> r[k] == TileAction(indexes[k], detections, action, attempt)
  {
    if indexes == [] then []
    else TileActions(indexes[..|indexes| - 1], detections, action, attempt)
         + [TileAction(indexes[|indexes| - 1], detections, action, attempt)]
  }

  /** One more index appends its action. */
  lemma TileActionsStep(indexes: seq<int>, k: nat, detections: map<int, Detection>, action: string, attempt: nat)
    requires k < |indexes|
    ensures TileActions(indexes[..k + 1], detections, action, attempt) ==
      TileActions(indexes[..k], detections, action, attempt) + [TileAction(indexes[k], detections, action, attempt)]
  {
    assert indexes[..k + 1][..k] == indexes[..k];
  }

  lemma AppendAssoc<T>(a: seq<T>, b: seq<T>, x: T)
    ensures a + b + [x] == a + (b + [x])
  {
  }

  /** The actions list the verification loop shares with _click_tiles. */
  class ActionLog {
    var entries: seq<ActionRecord>

    constructor ()
      ensures entries == []
    {
      entries := [];
    }

    /** _click_tiles: click every tile that passes the score gate and log each index. */
    method ClickTiles(indexes: seq<int>, detections: map<int, Detection>, action: string, attempt: nat)
      modifies this
      ensures entries == old(entries) + TileActions(indexes, detections, action, attempt)
    {
      for k := 0 to |indexes|
        invariant entries == old(entries) + TileActions(indexes[..k], detections, action, attempt)
      {
        TileActionsStep(indexes, k, detections, action, attempt);
        var idx := indexes[k];
        if idx !in detections || detections[idx].score < MATCH_THRESHOLD_OBJECT {
          var score := if idx in detections then Some(detections[idx].score) else None;
          AppendAssoc(old(entries), TileActions(indexes[..k], detections, action, attempt), ActionRecord(attempt, action, idx, Skipped, score));
          entries := entries + [ActionRecord(attempt, action, idx, Skipped, score)];
          continue;
        }
        AppendAssoc(old(entries), TileActions(indexes[..k], detections, action, attempt),
                    ActionRecord(attempt, action, idx, Clicked, Some(detections[idx].score)));
        entries := entries + [ActionRecord(attempt, action, idx, Clicked, Some(detections[idx].score))];
      }
      assert indexes[..|indexes|] == indexes;
    }

    /** A repair round of _verification_loop: add the missed tiles, then remove the extra ones. */
    method RepairRound(rec: AttemptRecord, detections: map<int, Detection>)
      modifies this
      ensures entries == old(entries) + Repairs(rec, detections)
    {
      if rec.missed != [] {
        ClickTiles(rec.missed, detections, "add", rec.attempt);
      }
      if rec.extra != [] {
        ClickTiles(rec.extra, detections, "remove", rec.attempt);
      }
    }
  }

  // ---------------------------------------------------------------------------
  // _verification_loop

  /** One entry of the attempts log. */
  datatype AttemptRecord = AttemptRecord(
    attempt: nat, correct: seq<int>, selected: seq<int>, missed: seq<int>, extra: seq<int>,
    ok: bool, reason: string, gridChanged: bool)

  /** The elements of `a` that are not in `b`, in the order of `a`. */
  function Minus(a: seq<int>, b: seq<int>): (r: seq<int>)
    ensures Elems(r) == Elems(a) - Elems(b)
  {
    Present(a, Elems(a) - Elems(b))
  }

  /**
   * `rec` records attempt `attempt` checked as `v`: the verifier's correct
   * tiles (or the chosen ones when it names none) and the selected tiles as
   * sorted sets, the missed tiles (correct, not selected) and the extra ones
   * (selected, not correct), each sorted, and the verifier's ok and reason.
   */
  predicate Records(rec: AttemptRecord, attempt: nat, chosen: seq<int>, v: Verdict) {
    && rec.attempt == attempt && rec.ok == v.ok && rec.reason == v.reason
    && StrictlyAscending(rec.correct) && Elems(rec.correct) == Elems(if v.correct != [] then v.correct else chosen)
    && StrictlyAscending(rec.selected) && Elems(rec.selected) == Elems(v.selected)
    && StrictlyAscending(rec.missed) && Elems(rec.missed) == Elems(rec.correct) - Elems(rec.selected)
    && StrictlyAscending(rec.extra) && Elems(rec.extra) == Elems(rec.selected) - Elems(rec.correct)
  }

  /** The record of attempt `attempt`, before any note is added. */
  function AttemptOf(attempt: nat, chosen: seq<int>, v: Verdict): (rec: AttemptRecord)
    ensures Records(rec, attempt, chosen, v) && !rec.gridChanged
  {
    var correct := SortedUnique(if v.correct != [] then v.correct else chosen);
    var selected := SortedUnique(v.selected);
    AttemptRecord(attempt, correct, selected, SortedUnique(Minus(correct, selected)),
                  SortedUnique(Minus(selected, correct)), v.ok, v.reason, false)
  }

  /** A record is determined by the verdict it records and its note. */
  lemma RecordsDetermined(a: AttemptRecord, b: AttemptRecord, attempt: nat, chosen: seq<int>, v: Verdict)
    requires Records(a, attempt, chosen, v) && Records(b, attempt, chosen, v)
    requires a.gridChanged == b.gridChanged
    ensures a == b
  {
    AscendingUnique(a.correct, b.correct);
    AscendingUnique(a.selected, b.selected);
    AscendingUnique(a.missed, b.missed);
    AscendingUnique(a.extra, b.extra);
  }

  /** The missed and the extra tiles never overlap. */
  lemma MissedExtraDisjoint(rec: AttemptRecord, attempt: nat, chosen: seq<int>, v: Verdict)
    requires Records(rec, attempt, chosen, v)
    ensures Elems(rec.missed) * Elems(rec.extra) == {}
  {
  }

  /** The verifier is satisfied and nothing is missed or extra. */
  predicate Converged(rec: AttemptRecord) {
    rec.ok && rec.missed == [] && rec.extra == []
  }

  /** An attempt converges exactly when the verifier says ok and its two tile sets agree. */
  lemma ConvergedMeansAgreement(rec: AttemptRecord, attempt: nat, chosen: seq<int>, v: Verdict)
    requires Records(rec, attempt, chosen, v)
    ensures Converged(rec) <==> v.ok && Elems(rec.correct) == Elems(v.selected)
  {
    ElemsEmpty(rec.missed);
    ElemsEmpty(rec.extra);
  }

  /** What one screenshot gives: the located tiles and the verifier's reply. */
  datatype Observation = Observation(detections: map<int, Detection>, reply: Value)

  /** At most half the tiles were located: the grid has changed under the loop. */
  predicate GridChanged(obs: Observation, order: seq<int>) {
    |obs.detections| <= |order| / 2
  }

  /** The loop goes on to repair after this attempt. */
  predicate Continues(rec: AttemptRecord, obs: Observation, order: seq<int>) {
    !Converged(rec) && rec.attempt < MAX_FIX_ROUNDS && !GridChanged(obs, order)
  }

  /** The clicks of a repair round: the missed tiles are added, then the extra ones removed. */
  function Repairs(rec: AttemptRecord, detections: map<int, Detection>): seq<ActionRecord> {
    TileActions(rec.missed, detections, "add", rec.attempt) + TileActions(rec.extra, detections, "remove", rec.attempt)
  }

  /** The actions of the repair rounds `recs`, in order. */
  function RepairLog(recs: seq<AttemptRecord>, observe: nat -> Observation): seq<ActionRecord> {
    if recs == [] then []
    else
      var last := recs[|recs| - 1];
      RepairLog(recs[..|recs| - 1], observe) + Repairs(last, observe(last.attempt).detections)
  }

  /** Every action is logged under the attempt of the round that issued it. */
  lemma {:induction false} RepairLogAttempts(recs: seq<AttemptRecord>, observe: nat -> Observation, bound: nat)
    requires forall k :: 0 <= k < |recs| ==> recs[k].attempt < bound
    ensures forall j :: 0 <= j < |RepairLog(recs, observe)| ==> RepairLog(recs, observe)[j].attempt < bound
  {
    if recs != [] {
      var init := recs[..|recs| - 1];
      assert forall k :: 0 <= k < |init| ==> init[k] == recs[k];
      RepairLogAttempts(init, observe, bound);
    }
  }

  /** What _verification_loop returns, the last screenshot aside. */
  datatype Outcome = Outcome(passed: bool, attempts: seq<AttemptRecord>, actions: seq<ActionRecord>)

  /**
   * How a reply is checked. The loop checks with Vision(order), which is
   * _verify_with_vision; the facts about runs of the loop hold for any check.
   */
  type Check = Value -> Result<Verdict>

  function Vision(order: seq<int>): Check {
    reply => VerifyWithVision(reply, order)
  }

  /** The verdict of attempt `k`. */
  function VerdictAt(k: nat, check: Check, observe: nat -> Observation): Result<Verdict> {
    check(observe(k).reply)
  }

  /** Attempt `k` was checked, logged as `rec` with no note, and went on to repair. */
  predicate RepairedAt(rec: AttemptRecord, k: nat, chosen: seq<int>, order: seq<int>, check: Check, observe: nat -> Observation) {
    && VerdictAt(k, check, observe).Ok?
    && Records(rec, k, chosen, VerdictAt(k, check, observe).value)
    && !rec.gridChanged
    && Continues(rec, observe(k), order)
  }

  /**
   * Attempt `k` was checked, logged as `rec`, and ended the loop: `passed`
   * when it converged; otherwise the rounds were used up or the grid changed,
   * and only the latter is noted.
   */
  predicate StoppedAt(rec: AttemptRecord, k: nat, chosen: seq<int>, order: seq<int>, check: Check,
                      observe: nat -> Observation, passed: bool) {
    && VerdictAt(k, check, observe).Ok?
    && Records(rec, k, chosen, VerdictAt(k, check, observe).value)
    && !Continues(rec, observe(k), order)
    && (passed <==> Converged(rec))
    && (rec.gridChanged <==> !passed && k < MAX_FIX_ROUNDS)
  }

  /** The checks before attempt `n` succeeded and the check of attempt `n` raised `e`. */
  predicate FailedAt(n: nat, e: Fault, check: Check, observe: nat -> Observation) {
    && VerdictAt(n, check, observe) == Err(e)
    && forall k :: 0 <= k < n ==> VerdictAt(k, check, observe).Ok?
  }

  /** Each record of `recs` is the repair round of its own attempt: `recs[k]` was attempt k. */
  predicate AllRepaired(recs: seq<AttemptRecord>, chosen: seq<int>, order: seq<int>, check: Check, observe: nat -> Observation) {
    recs == [] ||
    (AllRepaired(recs[..|recs| - 1], chosen, order, check, observe) &&
     RepairedAt(recs[|recs| - 1], |recs| - 1, chosen, order, check, observe))
  }

  /** AllRepaired spelled out record by record. */
  lemma {:induction false} AllRepairedMeaning(recs: seq<AttemptRecord>, chosen: seq<int>, order: seq<int>,
                                              check: Check, observe: nat -> Observation)
    requires AllRepaired(recs, chosen, order, check, observe)
    ensures forall k :: 0 <= k < |recs| ==> RepairedAt(recs[k], k, chosen, order, check, observe)
  {
    if recs != [] {
      var init := recs[..|recs| - 1];
      AllRepairedMeaning(init, chosen, order, check, observe);
      forall k | 0 <= k < |recs| ensures RepairedAt(recs[k], k, chosen, order, check, observe) {
        if k < |init| {
          assert init[k] == recs[k];
        }
      }
    }
  }

  /** A check that raises after the repair rounds `repaired` fails the loop at that attempt. */
  lemma FailsAfterRepairs(repaired: seq<AttemptRecord>, chosen: seq<int>, order: seq<int>, check: Check, observe: nat -> Observation)
    requires AllRepaired(repaired, chosen, order, check, observe)
    requires VerdictAt(|repaired|, check, observe).Err?
    ensures FailedAt(|repaired|, VerdictAt(|repaired|, check, observe).error, check, observe)
  {
    AllRepairedMeaning(repaired, chosen, order, check, observe);
    forall k | 0 <= k < |repaired| ensures VerdictAt(k, check, observe).Ok? {
      assert RepairedAt(repaired[k], k, chosen, order, check, observe);
    }
  }

  /** The repair rounds log their clicks under their own attempts, all before attempt |recs|. */
  lemma {:induction false} RepairLogBefore(recs: seq<AttemptRecord>, chosen: seq<int>, order: seq<int>,
                                           check: Check, observe: nat -> Observation)
    requires AllRepaired(recs, chosen, order, check, observe)
    ensures forall j :: 0 <= j < |RepairLog(recs, observe)| ==> RepairLog(recs, observe)[j].attempt < |recs|
  {
    if recs != [] {
      var init := recs[..|recs| - 1];
      RepairLogBefore(init, chosen, order, check, observe);
      var last := recs[|recs| - 1];
      assert last.attempt == |recs| - 1;
      var tail := Repairs(last, observe(last.attempt).detections);
      assert forall j :: 0 <= j < |tail| ==> tail[j].attempt == last.attempt;
    }
  }

  /**
   * `o` is a run of the loop that ran to its end: every attempt but the last
   * repaired, the last one stopped it, and the actions are those of the
   * repair rounds, each under its round's attempt.
   */
  predicate Completed(o: Outcome, chosen: seq<int>, order: seq<int>, check: Check, observe: nat -> Observation) {
    var n := |o.attempts|;
    && 1 <= n <= MAX_FIX_ROUNDS + 1
    && AllRepaired(o.attempts[..n - 1], chosen, order, check, observe)
    && StoppedAt(o.attempts[n - 1], n - 1, chosen, order, check, observe, o.passed)
    && o.actions == RepairLog(o.attempts[..n - 1], observe)
    && (forall j :: 0 <= j < |o.actions| ==> o.actions[j].attempt < n - 1)
  }

  /** Repair rounds followed by a stopping attempt make a completed run. */
  lemma CompletesAfterRepairs(repaired: seq<AttemptRecord>, rec: AttemptRecord, passed: bool, actions: seq<ActionRecord>,
                              chosen: seq<int>, order: seq<int>, check: Check, observe: nat -> Observation)
    requires |repaired| <= MAX_FIX_ROUNDS
    requires AllRepaired(repaired, chosen, order, check, observe)
    requires StoppedAt(rec, |repaired|, chosen, order, check, observe, passed)
    requires actions == RepairLog(repaired, observe)
    ensures Completed(Outcome(passed, repaired + [rec], actions), chosen, order, check, observe)
  {
    var attempts := repaired + [rec];
    assert attempts[..|attempts| - 1] == repaired;
    assert attempts[|attempts| - 1] == rec;
    RepairLogBefore(repaired, chosen, order, check, observe);
  }

  /**
   * The judgement on one attempt whose reply coerced to `v`: `passed` when it
   * converged, `stop` when the loop ends here, and the record as logged.
   */
  method Assess(attempt: nat, chosen: seq<int>, v: Verdict, obs: Observation, order: seq<int>)
    returns (rec: AttemptRecord, stop: bool, passed: bool)
    ensures Records(rec, attempt, chosen, v)
    ensures passed <==> Converged(rec)
    ensures stop <==> !Continues(rec, obs, order)
    ensures rec.gridChanged <==> stop && !passed && attempt < MAX_FIX_ROUNDS
  {
    rec := AttemptOf(attempt, chosen, v);
    passed := rec.ok && rec.missed == [] && rec.extra == [];
    stop := passed || attempt >= MAX_FIX_ROUNDS || |obs.detections| <= |order| / 2;
    if stop && !passed && attempt < MAX_FIX_ROUNDS {
      rec := rec.(gridChanged := true);
    }
  }

  /** What Assess decided about attempt `k`, in terms of the run. */
  lemma AssessedAt(rec: AttemptRecord, stop: bool, passed: bool, k: nat, chosen: seq<int>, order: seq<int>,
                   check: Check, observe: nat -> Observation)
    requires VerdictAt(k, check, observe).Ok?
    requires Records(rec, k, chosen, VerdictAt(k, check, observe).value)
    requires passed <==> Converged(rec)
    requires stop <==> !Continues(rec, observe(k), order)
    requires rec.gridChanged <==> stop && !passed && k < MAX_FIX_ROUNDS
    ensures stop ==> StoppedAt(rec, k, chosen, order, check, observe, passed)
    ensures !stop ==> RepairedAt(rec, k, chosen, order, check, observe)
  {
  }

  /** A repair round extends the run and its log. */
  lemma RepairedStep(repaired: seq<AttemptRecord>, rec: AttemptRecord, chosen: seq<int>, order: seq<int>,
                     check: Check, observe: nat -> Observation)
    requires AllRepaired(repaired, chosen, order, check, observe)
    requires RepairedAt(rec, |repaired|, chosen, order, check, observe)
    ensures AllRepaired(repaired + [rec], chosen, order, check, observe)
    ensures RepairLog(repaired + [rec], observe) == RepairLog(repaired, observe) + Repairs(rec, observe(rec.attempt).detections)
  {
    assert (repaired + [rec])[..|repaired|] == repaired;
  }

  /**
   * The loop of _verification_loop with the replies checked by `check`.
   * `observe(k)` is what attempt k sees. Every attempt but the last goes on
   * to repair; the last one converged, used up the rounds or found the grid
   * changed, and it clicks nothing. A reply the check rejects ends the loop
   * with that error.
   */
  method RepairLoop(chosen: seq<int>, order: seq<int>, check: Check, observe: nat -> Observation) returns (r: Result<Outcome>)
    ensures r.Err? ==> exists n :: 0 <= n <= MAX_FIX_ROUNDS && FailedAt(n, r.error, check, observe)
    ensures r.Err? ==> exists repaired: seq<AttemptRecord> ::
              && |repaired| <= MAX_FIX_ROUNDS
              && AllRepaired(repaired, chosen, order, check, observe)
              && VerdictAt(|repaired|, check, observe) == Err(r.error)
    ensures r.Ok? ==> Completed(r.value, chosen, order, check, observe)
  {
    var log := new ActionLog();
    var repaired: seq<AttemptRecord> := [];
    while true
      invariant |repaired| <= MAX_FIX_ROUNDS
      invariant AllRepaired(repaired, chosen, order, check, observe)
      invariant log.entries == RepairLog(repaired, observe)
      decreases MAX_FIX_ROUNDS - |repaired|
    {
      var attempt := |repaired|;
      var obs := observe(attempt);
      var verdict := check(obs.reply);
      if verdict.Err? {
        FailsAfterRepairs(repaired, chosen, order, check, observe);
        return Err(verdict.error);
      }
      var rec, stop, passed := Assess(attempt, chosen, verdict.value, obs, order);
      AssessedAt(rec, stop, passed, attempt, chosen, order, check, observe);
      if stop {
        CompletesAfterRepairs(repaired, rec, passed, log.entries, chosen, order, check, observe);
        return Ok(Outcome(passed, repaired + [rec], log.entries));
      }
      log.RepairRound(rec, obs.detections);
      RepairedStep(repaired, rec, chosen, order, check, observe);
      repaired := repaired + [rec];
    }
  }

  /** _verification_loop: the repair loop with the replies checked by _verify_with_vision. */
  method VerificationLoop(chosen: seq<int>, order: seq<int>, observe: nat -> Observation) returns (r: Result<Outcome>)
    ensures r.Err? ==> exists n :: 0 <= n <= MAX_FIX_ROUNDS && FailedAt(n, r.error, Vision(order), observe)
    ensures r.Err? ==> exists repaired: seq<AttemptRecord> ::
              && |repaired| <= MAX_FIX_ROUNDS
              && AllRepaired(repaired, chosen, order, Vision(order), observe)
              && VerdictAt(|repaired|, Vision(order), observe) == Err(r.error)
    ensures r.Ok? ==> Completed(r.value, chosen, order, Vision(order), observe)
  {
    r := RepairLoop(chosen, order, Vision(order), observe);
  }
}
