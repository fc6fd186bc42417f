/**
 * The checkbox-and-question stage: click the checkbox where its template
 * matches best, then wait for the question panel and turn the vision
 * service's reading of it into the question record, with the categories the
 * later stages filter by.
 */
module StageCheckboxQuestion {

  import opened Wrappers
  import opened Values
  import opened Sorting
  import opened Core
  import opened TemplateUtils
  import opened Polling

  const QUESTION_TIMEOUT: string := "[stage_checkbox_question] Question panel not found in time"

  // ---------------------------------------------------------------------------
  // click_checkbox_by_template

  /**
   * The point click_checkbox_by_template clicks: the centre of the unscaled
   * template placed at the best match. There is no score threshold.
   */
  function CheckboxClick(t: TemplateFile, matchAt: Matcher): (r: Result<(int, int)>)
    ensures t.Missing? <==> r == Err(FileNotFoundError)
    ensures t.Unreadable? <==> r.Err? && r.error.RuntimeError?
    ensures t.Template? ==>
      && r.Ok?
      && r.value.0 == matchAt(t.width, t.height).x + t.width / 2
      && r.value.1 == matchAt(t.width, t.height).y + t.height / 2
  {
    match TemplateError(t)
    case Some(e) => Err(e)
    case None =>
      var m := matchAt(t.width, t.height);
      Ok((m.x + t.width / 2, m.y + t.height / 2))
  }

  /** The click lands inside the box match_best_template would crop for the same match. */
  lemma CheckboxClickInsideMatch(t: TemplateFile, matchAt: Matcher)
    requires t.Template?
    ensures var b := MatchBestTemplate(t, matchAt).value.rect;
      var p := CheckboxClick(t, matchAt).value;
      b.x1 <= p.0 <= b.x2 && b.y1 <= p.1 <= b.y2
      && (t.width > 0 ==> p.0 < b.x2) && (t.height > 0 ==> p.1 < b.y2)
  {
  }

  /** The click ignores the score: matchers that agree on the location click the same point. */
  lemma CheckboxClickIgnoresScore(t: TemplateFile, m1: Matcher, m2: Matcher)
    requires t.Template?
    requires m1(t.width, t.height).x == m2(t.width, t.height).x
    requires m1(t.width, t.height).y == m2(t.width, t.height).y
    ensures CheckboxClick(t, m1) == CheckboxClick(t, m2)
  {
  }

  // ---------------------------------------------------------------------------
  // capture_question_to_json_retry

  /** What question.json records. */
  datatype Question = Question(
    score: real,
    taskText: string,
    selectionCriteria: string,
    positiveKeywords: Value,
    negativeKeywords: Value,
    exampleContainer: string,
    exampleForCreature: string,
    targetCreatureCategory: string,
    excludeCreatureCategory: string,
    targetCategories: seq<string>,
    excludeCategories: seq<string>)

  /** The text fields read with (data.get(key) or "").strip(), in the order they are read. */
  const TEXT_KEYS: seq<string> := [
    "task_text", "selection_criteria", "example_container",
    "example_container_for_creature", "target_creature_category", "exclude_creature_category"
  ]

  /** Every text field of the reply is absent, falsy or a string. */
  predicate TextFieldsReadable(data: Fields) {
    forall i :: 0 <= i < |TEXT_KEYS| ==> TextField(data, TEXT_KEYS[i]).Ok?
  }

  /**
   * The record built from the vision reply `data` for a panel matched with
   * `score`. The target categories merge the task text's categories with
   * those of the two creature hints; the exclusions come from the exclusion
   * hint alone.
   */
  function QuestionFrom(data: Fields, score: real): (r: Result<Question>)
    ensures r.Err? <==> exists i :: 0 <= i < |TEXT_KEYS| && TextField(data, TEXT_KEYS[i]).Err?
    ensures r.Err? ==> r.error == AttributeError
    ensures r.Ok? ==>
      var q := r.value;
      && q.score == score
      && TextField(data, "task_text") == Ok(q.taskText)
      && TextField(data, "selection_criteria") == Ok(q.selectionCriteria)
      && TextField(data, "example_container") == Ok(q.exampleContainer)
      && TextField(data, "example_container_for_creature") == Ok(q.exampleForCreature)
      && TextField(data, "target_creature_category") == Ok(q.targetCreatureCategory)
      && TextField(data, "exclude_creature_category") == Ok(q.excludeCreatureCategory)
      && q.positiveKeywords == GetOr(data, "positive_keywords", List([]))
      && q.negativeKeywords == GetOr(data, "negative_keywords", List([]))
      && NamesAscending(q.targetCategories)
      && Elems(q.targetCategories) ==
           TextCategories(q.taskText) + HintCategories(q.exampleForCreature) + HintCategories(q.targetCreatureCategory)
      && NamesAscending(q.excludeCategories)
      && Elems(q.excludeCategories) == HintCategories(q.excludeCreatureCategory)
  {
    if !TextFieldsReadable(data) then Err(AttributeError)
    else
      var taskText := TextField(data, TEXT_KEYS[0]).value;
      var criteria := TextField(data, TEXT_KEYS[1]).value;
      var container := TextField(data, TEXT_KEYS[2]).value;
      var forCreature := TextField(data, TEXT_KEYS[3]).value;
      var target := TextField(data, TEXT_KEYS[4]).value;
      var exclude := TextField(data, TEXT_KEYS[5]).value;
      CategoriesWithinTaxonomy(taskText);
      CategoriesWithinTaxonomy(forCreature);
      CategoriesWithinTaxonomy(target);
      CategoriesWithinTaxonomy(exclude);
      var targetCats := TextCategories(taskText) + HintCategories(forCreature) + HintCategories(target);
      Ok(Question(score, taskText, criteria,
                  GetOr(data, "positive_keywords", List([])), GetOr(data, "negative_keywords", List([])),
                  container, forCreature, target, exclude,
                  SortCategories(targetCats), SortCategories(HintCategories(exclude))))
  }

  /** An empty reply gives empty texts, empty keyword lists and no category. */
  lemma EmptyReplyQuestion(score: real)
    ensures QuestionFrom([], score) ==
      Ok(Question(score, "", "", List([]), List([]), "", "", "", "", [], []))
  {
    assert forall key :: TextField([], key) == Ok([]);
    assert TextFieldsReadable([]);
    var q := QuestionFrom([], score).value;
    assert q.taskText == "" && q.selectionCriteria == "" && q.exampleContainer == "";
    assert q.exampleForCreature == "" && q.targetCreatureCategory == "" && q.excludeCreatureCategory == "";
    assert q.positiveKeywords == List([]) && q.negativeKeywords == List([]);
    CategoriesOfEmpty();
    ElemsEmpty(q.targetCategories);
    ElemsEmpty(q.excludeCategories);
  }

  /**
   * The polling loop and the reply's coercion. `reply` is what the vision
   * service returns for the accepted panel.
   */
  method CaptureQuestion(captures: seq<Result<Crop>>, reply: Fields) returns (r: Result<Question>)
    ensures var p := FirstAtLeast(captures, MATCH_THRESHOLD_QUESTION, QUESTION_TIMEOUT);
      && (p.Err? ==> r == Err(p.error))
      && (p.Ok? ==> r == QuestionFrom(reply, p.value.score))
  {
    var panel := PollQuestion(captures);
    if panel.Err? {
      return Err(panel.error);
    }
    r := QuestionFrom(reply, panel.value.score);
  }

  /** The polling loop: retry until a capture scores at least 0.30, a match fails or the captures run out. */
  method PollQuestion(captures: seq<Result<Crop>>) returns (p: Result<Crop>)
    ensures p == FirstAtLeast(captures, MATCH_THRESHOLD_QUESTION, QUESTION_TIMEOUT)
  {
    var k := 0;
    while k < |captures|
      invariant 0 <= k <= |captures|
      invariant FirstAtLeast(captures, MATCH_THRESHOLD_QUESTION, QUESTION_TIMEOUT)
             == FirstAtLeast(captures[k..], MATCH_THRESHOLD_QUESTION, QUESTION_TIMEOUT)
    {
      PollStep(captures, MATCH_THRESHOLD_QUESTION, QUESTION_TIMEOUT, k);
      match captures[k]
      case Err(e) =>
        return Err(e);
      case Ok(q) =>
        if q.score >= MATCH_THRESHOLD_QUESTION {
          return Ok(q);
        }
      k := k + 1;
    }
    return Err(TimeoutError(QUESTION_TIMEOUT));
  }
}
