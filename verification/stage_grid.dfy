/**
 * The grid stage: poll screenshots until the 3×3 grid panel is found, cut it
 * into nine tiles in row-major order, and give each tile the label the vision
 * service returns for it, normalised and classified.
 */
module StageGrid {

  import opened Wrappers
  import opened Strings
  import opened Values
  import opened Sorting
  import opened Core
  import opened TemplateUtils
  import opened Polling

  /** The fallback threshold for the best match seen before the deadline. */
  const RELAXED_MATCH_THRESHOLD_GRID: real := 0.24

  const GRID_TIMEOUT: string := "[stage_grid] Grid panel not found in time"

  // ---------------------------------------------------------------------------
  // Polling

  /** What happens once the deadline passes without a primary match. */
  function AfterDeadline(best: Option<Crop>): (r: Result<Crop>)
    ensures r.Ok? <==> best.Some? && best.value.score >= RELAXED_MATCH_THRESHOLD_GRID
    ensures r.Err? ==> r.error == TimeoutError(GRID_TIMEOUT)
  {
    if best.Some? && best.value.score >= RELAXED_MATCH_THRESHOLD_GRID then Ok(best.value)
    else Err(TimeoutError(GRID_TIMEOUT))
  }

  /**
   * The relaxed fallback never fires: the best score seen before the
   * deadline is below MATCH_THRESHOLD_GRID, which is below the relaxed one.
   */
  lemma RelaxedFallbackUnreachable(best: Option<Crop>)
    requires best.Some? ==> best.value.score < MATCH_THRESHOLD_GRID
    ensures AfterDeadline(best) == Err(TimeoutError(GRID_TIMEOUT))
  {
  }

  /**
   * The polling loop of capture_grid_objects_to_json_retry. `captures` are
   * the multiscale matches of the screenshots taken before the deadline.
   */
  method PollGrid(captures: seq<Result<Crop>>) returns (r: Result<Crop>)
    ensures r == FirstAtLeast(captures, MATCH_THRESHOLD_GRID, GRID_TIMEOUT)
  {
    var bestScore := -1.0;
    var best: Option<Crop> := None;
    var k := 0;
    while k < |captures|
      invariant 0 <= k <= |captures|
      invariant FirstAtLeast(captures, MATCH_THRESHOLD_GRID, GRID_TIMEOUT) == FirstAtLeast(captures[k..], MATCH_THRESHOLD_GRID, GRID_TIMEOUT)
      invariant forall j :: 0 <= j < k ==> captures[j].Ok? && captures[j].value.score < MATCH_THRESHOLD_GRID
      // best_score is the largest score seen so far (or -1.0 before any)
      invariant forall j :: 0 <= j < k ==> captures[j].value.score <= bestScore
      invariant best.None? ==> bestScore == -1.0
      invariant best.Some? ==> best.value.score == bestScore
      invariant best.Some? ==> exists j :: 0 <= j < k && captures[j] == Ok(best.value)
    {
      assert captures[k..][1..] == captures[k + 1..];
      match captures[k]
      case Err(e) =>
        return Err(e);
      case Ok(g) =>
        if g.score > bestScore {
          bestScore := g.score;
          best := Some(g);
        }
        if g.score >= MATCH_THRESHOLD_GRID {
          return Ok(g);
        }
      k := k + 1;
    }
    RelaxedFallbackUnreachable(best);
    return AfterDeadline(best);
  }

  // ---------------------------------------------------------------------------
  // The 3×3 partition

  /** Where span `k` of three starts along a side of `size` pixels. */
  function SpanStart(size: nat, k: nat): nat {
    k * (size / 3)
  }

  /** Where span `k` ends: the last span absorbs the remainder. */
  function SpanEnd(size: nat, k: nat): nat {
    if k == 2 then size else (k + 1) * (size / 3)
  }

  /** The span a coordinate falls in. */
  function SpanOf(size: nat, x: nat): (k: nat)
    ensures k < 3
  {
    if size / 3 == 0 || x / (size / 3) >= 2 then 2 else x / (size / 3)
  }

  /** Every coordinate of the side lies in exactly one span, the one SpanOf names. */
  lemma SpansPartition(size: nat, x: nat, k: nat)
    requires x < size && k < 3
    ensures SpanStart(size, k) <= x < SpanEnd(size, k) <==> k == SpanOf(size, x)
  {
    var q := size / 3;
    assert 3 * q <= size;
    if q > 0 {
      QuotientRange(x, q);
    }
    if k == 0 {
      assert SpanStart(size, k) == 0 && SpanEnd(size, k) == q;
    } else if k == 1 {
      assert SpanStart(size, k) == q && SpanEnd(size, k) == 2 * q;
    } else {
      assert SpanStart(size, k) == 2 * q && SpanEnd(size, k) == size;
    }
  }

  /** Which third a coordinate falls in, read off its quotient by the span width. */
  lemma QuotientRange(x: nat, q: nat)
    requires q > 0
    ensures x / q == 0 <==> x < q
    ensures x / q == 1 <==> q <= x < 2 * q
    ensures x / q >= 2 <==> 2 * q <= x
  {
    var d := x / q;
    assert q * d <= x < q * d + q;
    if d >= 2 {
      assert q * d >= q * 2;
    }
  }

  lemma SpanOrdered(size: nat, k: nat)
    requires k < 3
    ensures SpanStart(size, k) <= SpanEnd(size, k) <= size
  {
    var q := size / 3;
    assert 3 * q <= size;
    if k == 1 {
      assert SpanStart(size, k) == q && SpanEnd(size, k) == 2 * q;
    } else if k == 2 {
      assert SpanStart(size, k) == 2 * q;
    }
  }

  /** A 100-pixel side is cut at 0, 33, 66 and 100. */
  lemma SpanExample()
    ensures SpanStart(100, 0) == 0 && SpanStart(100, 1) == 33 && SpanStart(100, 2) == 66
    ensures SpanEnd(100, 0) == 33 && SpanEnd(100, 1) == 66 && SpanEnd(100, 2) == 100
  {
  }

  /** Below three pixels the first two spans are empty and the last is the whole side. */
  lemma NarrowSide(size: nat)
    requires size < 3
    ensures SpanStart(size, 0) == SpanEnd(size, 0) == 0
    ensures SpanStart(size, 1) == SpanEnd(size, 1) == 0
    ensures SpanStart(size, 2) == 0 && SpanEnd(size, 2) == size
  {
  }

  /** The box of the tile in row `r`, column `c` of a w × h grid. */
  function TileBox(w: nat, h: nat, r: nat, c: nat): Rect
    requires r < 3 && c < 3
  {
    Rect(SpanStart(w, c), SpanStart(h, r), SpanEnd(w, c), SpanEnd(h, r))
  }

  predicate InBox(b: Rect, x: int, y: int) {
    b.x1 <= x < b.x2 && b.y1 <= y < b.y2
  }

  /** The nine tiles cover the grid with no gap and no overlap. */
  lemma TilesPartitionGrid(w: nat, h: nat, x: nat, y: nat)
    requires x < w && y < h
    ensures forall r, c :: 0 <= r < 3 && 0 <= c < 3 ==>
      (InBox(TileBox(w, h, r, c), x, y) <==> r == SpanOf(h, y) && c == SpanOf(w, x))
  {
    forall r, c | 0 <= r < 3 && 0 <= c < 3
      ensures InBox(TileBox(w, h, r, c), x, y) <==> r == SpanOf(h, y) && c == SpanOf(w, x)
    {
      SpansPartition(w, x, c);
      SpansPartition(h, y, r);
    }
  }

  /** [(x1 + x2) // 2, (y1 + y2) // 2] */
  function Center(b: Rect): (int, int) {
    ((b.x1 + b.x2) / 2, (b.y1 + b.y2) / 2)
  }

  /** Each tile's click point lies inside the tile (on its closed box). */
  lemma CenterInTile(w: nat, h: nat, r: nat, c: nat)
    requires r < 3 && c < 3
    ensures var b := TileBox(w, h, r, c);
      b.x1 <= Center(b).0 <= b.x2 && b.y1 <= Center(b).1 <= b.y2
  {
    SpanOrdered(w, c);
    SpanOrdered(h, r);
  }

  // ---------------------------------------------------------------------------
  // Tile labels

  /** A tile's label as the grid file records it. */
  datatype TileLabel = TileLabel(text: string, conf: real, normLabel: string, categories: seq<string>)

  /** float(lbl.get("conf") or 0.0), with 0.0 when the conversion raises. */
  function LabelConf(lbl: Fields): (conf: real)
    ensures Get(lbl, "conf").None? ==> conf == 0.0
    ensures ToFloat(GetOr(lbl, "conf", Num(0.0))).Err? ==> conf == 0.0
    ensures ToFloat(GetOr(lbl, "conf", Num(0.0))).Ok? ==> conf == ToFloat(GetOr(lbl, "conf", Num(0.0))).value
  {
    match ToFloat(GetOr(lbl, "conf", Num(0.0)))
    case Ok(x) => x
    case Err(_) => 0.0
  }

  /**
   * The per-tile part of the partition loop: the label is stripped and
   * lower-cased (a truthy non-string label has no .strip()), the confidence
   * coerced, and the normalised label and sorted categories derived from it.
   */
  function LabelTile(lbl: Fields): (r: Result<TileLabel>)
    ensures r.Err? <==> TextField(lbl, "label").Err?
    ensures r.Err? ==> r.error == AttributeError
    ensures r.Ok? ==> r.value.text == Lower(TextField(lbl, "label").value)
    ensures r.Ok? ==> r.value.conf == LabelConf(lbl)
    ensures r.Ok? ==> IsNormal(r.value.normLabel) && r.value.normLabel == NormalizeLabel(r.value.text)
    ensures r.Ok? ==> NamesAscending(r.value.categories)
                      && Elems(r.value.categories) == LabelCategories(r.value.text)
  {
    match TextField(lbl, "label")
    case Err(e) => Err(e)
    case Ok(text) =>
      var tileLabel := Lower(text);
      CategoriesWithinTaxonomy(tileLabel);
      Ok(TileLabel(tileLabel, LabelConf(lbl), NormalizeLabel(tileLabel),
                   SortCategories(LabelCategories(tileLabel))))
  }

  /** A missing, null or non-numeric confidence reads as 0.0. */
  lemma ConfDefaults(lbl: Fields)
    ensures Get(lbl, "conf").None? ==> LabelConf(lbl) == 0.0
    ensures Get(lbl, "conf") == Some(Null) ==> LabelConf(lbl) == 0.0
    ensures (Get(lbl, "conf").Some? && Get(lbl, "conf").value.List?) ==> LabelConf(lbl) == 0.0
    ensures Get(lbl, "conf") == Some(Num(0.75)) ==> LabelConf(lbl) == 0.75
  {
  }

  /** One entry of the grid file's "objects". */
  datatype GridObject = GridObject(index: nat, row: nat, col: nat, box: Rect, center: (int, int), tile: TileLabel)

  /** Object `k` of a w × h grid: its place in row-major order, its box, its centre and its label. */
  function TileObject(w: nat, h: nat, k: nat, tile: TileLabel): (o: GridObject)
    requires k < 9
    ensures o.row * 3 + o.col == o.index == k && o.row < 3 && o.col < 3
  {
    var box := TileBox(w, h, k / 3, k % 3);
    GridObject(k, k / 3, k % 3, box, Center(box), tile)
  }

  /**
   * The nested row/column loop. `labels(idx)` is what labelling tile idx
   * gives (LabelTile of the vision service's reply); a failure aborts the
   * stage with that failure.
   */
  method PartitionGrid(w: nat, h: nat, labels: nat -> Result<TileLabel>) returns (r: Result<seq<GridObject>>)
    ensures r.Ok? <==> forall k :: 0 <= k < 9 ==> labels(k).Ok?
    ensures r.Err? ==> exists k :: 0 <= k < 9 && labels(k) == Err(r.error)
    ensures r.Ok? ==> |r.value| == 9
    ensures r.Ok? ==> forall k :: 0 <= k < 9 ==> r.value[k] == TileObject(w, h, k, labels(k).value)
  {
    var objects: seq<GridObject> := [];
    var idx := 0;
    for row := 0 to 3
      invariant idx == 3 * row && |objects| == idx
      invariant forall k :: 0 <= k < idx ==> labels(k).Ok?
      invariant forall k :: 0 <= k < idx ==> objects[k] == TileObject(w, h, k, labels(k).value)
    {
      for col := 0 to 3
        invariant idx == 3 * row + col && |objects| == idx
        invariant forall k :: 0 <= k < idx ==> labels(k).Ok?
        invariant forall k :: 0 <= k < idx ==> objects[k] == TileObject(w, h, k, labels(k).value)
      {
        var box := TileBox(w, h, row, col);
        var labelled := labels(idx);
        if labelled.Err? {
          return Err(labelled.error);
        }
        assert idx / 3 == row && idx % 3 == col;
        objects := objects + [GridObject(idx, row, col, box, Center(box), labelled.value)];
        idx := idx + 1;
      }
    }
    return Ok(objects);
  }

  /** What the grid stage writes: the panel's match score and the nine objects. */
  datatype GridReport = GridReport(score: real, objects: seq<GridObject>)

  /** The size of a crop box; the matcher's crops are never inverted. */
  function Width(b: Rect): nat
    requires b.x1 <= b.x2
  {
    b.x2 - b.x1
  }

  function Height(b: Rect): nat
    requires b.y1 <= b.y2
  {
    b.y2 - b.y1
  }

  /** The partition and labelling of the accepted panel `g`. */
  method LabelGrid(g: Crop, labeler: nat -> Fields) returns (r: Result<GridReport>)
    requires g.rect.x1 <= g.rect.x2 && g.rect.y1 <= g.rect.y2
    ensures r.Ok? <==> forall k :: 0 <= k < 9 ==> LabelTile(labeler(k)).Ok?
    ensures r.Err? ==> r.error == AttributeError
    ensures r.Ok? ==>
      && r.value.score == g.score
      && |r.value.objects| == 9
      && forall k :: 0 <= k < 9 ==>
           r.value.objects[k] == TileObject(Width(g.rect), Height(g.rect), k, LabelTile(labeler(k)).value)
  {
    var labels := (k: nat) => LabelTile(labeler(k));
    assert forall k :: 0 <= k < 9 ==> labels(k) == LabelTile(labeler(k));
    var objects := PartitionGrid(Width(g.rect), Height(g.rect), labels);
    if objects.Err? {
      return Err(objects.error);
    }
    return Ok(GridReport(g.score, objects.value));
  }

  /** capture_grid_objects_to_json_retry: poll for the panel, then partition and label it. */
  method CaptureGridObjects(captures: seq<Result<Crop>>, labeler: nat -> Fields) returns (r: Result<GridReport>)
    requires forall k :: 0 <= k < |captures| && captures[k].Ok? ==>
      captures[k].value.rect.x1 <= captures[k].value.rect.x2 && captures[k].value.rect.y1 <= captures[k].value.rect.y2
    ensures var p := FirstAtLeast(captures, MATCH_THRESHOLD_GRID, GRID_TIMEOUT);
      && (p.Err? ==> r == Err(p.error))
      && (p.Ok? ==> (r.Ok? <==> forall k :: 0 <= k < 9 ==> LabelTile(labeler(k)).Ok?))
      && (p.Ok? && r.Err? ==> r.error == AttributeError)
      && (r.Ok? ==>
            && p.Ok?
            && r.value.score == p.value.score
            && |r.value.objects| == 9
            && forall k :: 0 <= k < 9 ==>
                 r.value.objects[k] == TileObject(Width(p.value.rect), Height(p.value.rect), k, LabelTile(labeler(k)).value))
  {
    var found := PollGrid(captures);
    if found.Err? {
      return Err(found.error);
    }
    r := LabelGrid(found.value, labeler);
  }
}
