/**
 * Template localisation on a screenshot. OpenCV's normalised
 * cross-correlation is not modelled: `matchAt(tw, th)` stands for the best
 * score and its top-left location for the template resized to tw × th.
 * What is modelled is the error cases, the crop arithmetic and the argmax
 * over a sweep of scales.
 */
module TemplateUtils {

  import opened Wrappers

  /** What opening a template path gives: no such file, undecodable, or an image of that size. */
  datatype TemplateFile = Missing | Unreadable | Template(width: nat, height: nat)

  /** The maximum of a match map (cv2.minMaxLoc): its value and where it is. */
  datatype MatchResult = MatchResult(score: real, x: int, y: int)

  /** A crop box (x1, y1, x2, y2), right and bottom edges exclusive. */
  datatype Rect = Rect(x1: int, y1: int, x2: int, y2: int)

  /** The region cut out of the screenshot and the score it was found with. */
  datatype Crop = Crop(rect: Rect, score: real)

  /** The matcher: best score and location for a template resized to (tw, th). */
  type Matcher = (nat, nat) -> MatchResult

  function TemplateError(t: TemplateFile): (r: Option<Fault>)
    ensures r.None? <==> t.Template?
  {
    match t
    case Missing => Some(FileNotFoundError)
    case Unreadable => Some(RuntimeError("Failed to read template image"))
    case Template(_, _) => None
  }

  /** The box of a tw × th template placed with its top-left corner at the match. */
  function PlaceAt(m: MatchResult, tw: nat, th: nat): (r: Rect)
    ensures r.x2 - r.x1 == tw && r.y2 - r.y1 == th
    ensures r.x1 == m.x && r.y1 == m.y
  {
    Rect(m.x, m.y, m.x + tw, m.y + th)
  }

  /** match_best_template: the unscaled template, its crop and its raw score. */
  function MatchBestTemplate(t: TemplateFile, matchAt: Matcher): (r: Result<Crop>)
    ensures t.Missing? <==> r == Err(FileNotFoundError)
    ensures t.Unreadable? <==> r.Err? && r.error.RuntimeError?
    ensures t.Template? ==>
              && r.Ok?
              && r.value.score == matchAt(t.width, t.height).score
              && r.value.rect.x1 == matchAt(t.width, t.height).x
              && r.value.rect.y1 == matchAt(t.width, t.height).y
              && r.value.rect.x2 - r.value.rect.x1 == t.width
              && r.value.rect.y2 - r.value.rect.y1 == t.height
  {
    match TemplateError(t)
    case Some(e) => Err(e)
    case None =>
      var m := matchAt(t.width, t.height);
      Ok(Crop(PlaceAt(m, t.width, t.height), m.score))
  }

  /** The sweep used when the caller passes no scales. */
  const DEFAULT_SCALES: seq<real> := [0.85, 0.9, 0.95, 1.0, 1.05, 1.1, 1.15]

  /**
   * max(1, int(dim * s)). The float product and its truncation are left to
   * `scaleDim`; only the lower bound of 1 is modelled.
   */
  function ScaledSize(dim: nat, s: real, scaleDim: (nat, real) -> int): (r: nat)
    ensures r >= 1
    ensures scaleDim(dim, s) >= 1 ==> r == scaleDim(dim, s)
  {
    if scaleDim(dim, s) >= 1 then scaleDim(dim, s) else 1
  }

  /** What the sweep finds at scale `s`: the scaled template's crop and score. */
  function CropAtScale(t: TemplateFile, s: real, scaleDim: (nat, real) -> int, matchAt: Matcher): (r: Crop)
    requires t.Template?
    ensures var tw := ScaledSize(t.width, s, scaleDim);
      var th := ScaledSize(t.height, s, scaleDim);
      && r.score == matchAt(tw, th).score
      && r.rect.x1 == matchAt(tw, th).x && r.rect.y1 == matchAt(tw, th).y
      && r.rect.x2 - r.rect.x1 == tw && r.rect.y2 - r.rect.y1 == th
    ensures r.rect.x2 - r.rect.x1 >= 1 && r.rect.y2 - r.rect.y1 >= 1
  {
    var tw := ScaledSize(t.width, s, scaleDim);
    var th := ScaledSize(t.height, s, scaleDim);
    var m := matchAt(tw, th);
    Crop(PlaceAt(m, tw, th), m.score)
  }

  /** The crops the sweep finds, scale by scale. */
  function Sweep(t: TemplateFile, scaleDim: (nat, real) -> int, matchAt: Matcher): real -> Crop
    requires t.Template?
  {
    s => CropAtScale(t, s, scaleDim, matchAt)
  }

  /** Scale `j` is the first of `ss` to reach the highest score, and `c` is what it found. */
  predicate IsFirstBest(ss: seq<real>, found: real -> Crop, j: int, c: Crop) {
    && 0 <= j < |ss|
    && c == found(ss[j])
    && (forall i :: 0 <= i < |ss| ==> found(ss[i]).score <= c.score)
    && (forall i :: 0 <= i < j ==> found(ss[i]).score < c.score)
  }

  /**
   * The loop of match_template_multiscale. The running best starts at score
   * -1.0 and is replaced only by a strictly greater score, so the first scale
   * to reach the maximum wins, and nothing is found when no score beats -1.0.
   */
  method BestOverScales(ss: seq<real>, found: real -> Crop) returns (best: Option<Crop>)
    ensures best.None? <==> forall i :: 0 <= i < |ss| ==> found(ss[i]).score <= -1.0
    ensures best.Some? ==> exists j :: IsFirstBest(ss, found, j, best.value)
  {
    var bestScore := -1.0;
    best := None;
    var winner := 0;
    for k := 0 to |ss|
      invariant best.None? ==> bestScore == -1.0
      invariant best.None? <==> forall i :: 0 <= i < k ==> found(ss[i]).score <= -1.0
      invariant best.Some? ==> 0 <= winner < k && best.value == found(ss[winner])
      invariant best.Some? ==> bestScore == best.value.score
      invariant best.Some? ==> forall i :: 0 <= i < winner ==> found(ss[i]).score < bestScore
      invariant forall i :: 0 <= i < k ==> found(ss[i]).score <= bestScore
    {
      var crop := found(ss[k]);
      if crop.score > bestScore {
        bestScore := crop.score;
        best := Some(crop);
        winner := k;
      }
    }
    if best.Some? {
      assert IsFirstBest(ss, found, winner, best.value);
    }
  }

  /**
   * match_template_multiscale: the sweep over `scales` (the default sweep
   * when none are given); when no score beats -1.0 the final unpacking of
   * the empty best fails with TypeError.
   */
  method MatchTemplateMultiscale(t: TemplateFile, scales: Option<seq<real>>,
                                 scaleDim: (nat, real) -> int, matchAt: Matcher)
    returns (r: Result<Crop>)
    ensures t.Missing? ==> r == Err(FileNotFoundError)
    ensures t.Unreadable? ==> r.Err? && r.error.RuntimeError?
    ensures t.Template? ==>
      var ss := if scales.Some? then scales.value else DEFAULT_SCALES;
      var found := Sweep(t, scaleDim, matchAt);
      && (r.Err? <==> forall i :: 0 <= i < |ss| ==> found(ss[i]).score <= -1.0)
      && (r.Err? ==> r.error == TypeError)
      && (r.Ok? ==> exists j :: IsFirstBest(ss, found, j, r.value))
  {
    match TemplateError(t)
    case Some(e) =>
      return Err(e);
    case None =>
      var ss := if scales.Some? then scales.value else DEFAULT_SCALES;
      var best := BestOverScales(ss, Sweep(t, scaleDim, matchAt));
      match best
      case None =>
        return Err(TypeError);
      case Some(crop) =>
        return Ok(crop);
  }

  /** The default sweep is the seven factors 0.85 to 1.15 in steps of 0.05. */
  lemma DefaultScales()
    ensures |DEFAULT_SCALES| == 7
    ensures forall i :: 0 <= i < 7 ==> DEFAULT_SCALES[i] == 0.85 + 0.05 * i as real
  {
  }
}
