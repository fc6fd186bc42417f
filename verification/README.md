# hCaptcha 3×3 tile selection — a Dafny model

The system solves an image captcha. It works through a browser window in five stages:

1. It clicks the checkbox where its template matches best on a screenshot.
2. It reads the question panel through a vision language model and turns the reply into a question record. The record holds the task text, hints and target/exclusion categories from a fixed taxonomy.
3. It locates the 3×3 grid panel, cuts it into nine tiles in row-major order and labels each tile.
4. It chooses tiles. The vision model's index lists are sanitised into the round's index domain, and a chain of post filters is applied: category fallback, creature fallback, a category filter that never empties the set, a "select all" expansion and a birdhouse override.
5. It runs a bounded verify-and-repair loop. A repair round clicks the missed tiles and un-clicks the extra ones, subject to a template-score gate, and logs every action.

A second, simpler flow (`png/chekbox.py`) asks the model for click coordinates directly and coerces them.

The model keeps the program's own structure:

| Module | Contents |
|---|---|
| `Core` | Label normalisation, label similarity, the taxonomy and its three category extractors, the brace scanner of `extract_json_object`. |
| `TemplateUtils` | The error cases of template matching, the crop arithmetic and the argmax over a scale sweep. |
| `Polling` | The "first capture above a threshold, else time out" outcome. |
| `StageGrid` | Grid polling, the 3×3 partition and the per-tile labelling. |
| `StageCheckboxQuestion` | The checkbox click point, the question polling loop and the reply's coercion into a question. |
| `StageAnalyze` | `_sanitize_indexes`, `_verify_with_vision`'s coercion, `_apply_post_filters`, `_click_tiles` as a class that owns the actions log, and `_verification_loop`. |
| `Chekbox` | The second flow. |

Three shared modules support them:

| Module | Contents |
|---|---|
| `Values` | Loosely typed JSON values with Python's truthiness, `dict.get`, `int()`, `float()`, `.strip()` and iteration, including the exceptions they raise. |
| `Strings` | Character classes, `lower`, `strip`, substring search and the regular-expression word boundary. |
| `Sorting` | `sorted(set(...))` for indices and category names. |

Python exceptions become `Result` values with a `Fault` (`TypeError`, `ValueError`, `AttributeError`, `FileNotFoundError`, `RuntimeError`, `TimeoutError`).

Several external inputs become parameters:

- **Vision replies** are `Value` inputs: `reply`, `labeler(k)`, `observe(k).reply`.
- **Template matches** are a `Matcher`: the best score and location for a template of a given size.
- **Detections** are a map from index to score and centre.
- **`difflib`'s ratio** is an uninterpreted `ratio(a, b)`.
- **Deadlines** are the finite sequence of captures taken before they expire.

The algorithms that loop or accumulate in the source are methods with loop invariants. Each method is proved equal to a specification function, and the source's promises are proved as lemmas about those functions.

Some consequences of the code that are easy to miss:

- `labels_similar` passes its arguments to `difflib` in order (core.py:160-161), so it is symmetric only when the ratio is (`Core.SimilarNotSymmetric`).
- The grid partition (stage_grid.py:85-94) has no degenerate-region check. A side narrower than 3 pixels gives two empty spans and raises nothing (`StageGrid.NarrowSide`).
- The relaxed grid threshold (0.24, stage_grid.py:26) is above the primary one (0.22, core.py:47). The fallback at stage_grid.py:68-77 runs only after every score stayed below 0.22, so it never fires (`StageGrid.RelaxedFallbackUnreachable`).
- `detect_categories_in_text` (core.py:164-175) finds "bird" in a text only through a vocabulary word such as "птица" (core.py:65). An inflected form such as "птицу" is not in the vocabulary, and no category is found for it.

## Model

| member | source | states |
|---|---|---|
| Strings.LowerChar | core.py:136 | exactly the Latin and basic Cyrillic capitals change: A–Z and U+0410–U+042F map to the code point 32 above, U+0400–U+040F to the one 80 above; letters and digits stay alphanumeric |
| Strings.Lower | core.py:136 | the lower-cased string has the same length and is lowered character by character |
| Strings.Strip | core.py:136 | the stripped string neither starts nor ends with whitespace, and it is empty exactly when the input is all whitespace |
| Strings.StripIsSlice | core.py:136 | the stripped string is a slice of the input with only whitespace before and after it |
| Strings.BeforeFirst | core.py:139-141 | `s.split(sep)[0]` is the prefix of `s` before the first `sep`: it holds no `sep`, and `sep` follows it unless it is all of `s` |
| Strings.TakeWord | core.py:142-144 | the longest prefix without whitespace: space-free, and followed by whitespace unless it is the whole string |
| Strings.FirstWord | core.py:142-144 | `split()` has no first word exactly for all-space input; otherwise the first word is non-empty and space-free |
| Strings.FirstWordIsFirst | core.py:142-144 | the word found is the first whitespace-delimited word: only whitespace before it, whitespace or the end after it |
| Strings.FirstWordAtUnique | core.py:142-144 | a string has only one first word, at only one position |
| Strings.KeepAlnum | core.py:145 | the filtered string holds only alphanumeric characters and stays lowered when its input was |
| Strings.KeepAlnumSelects | core.py:145 | the filter keeps exactly the alphanumeric characters of its input, in their order |
| Strings.WholeWordIsSubstring | core.py:172 | a match with `\b` on both sides is also a plain substring match |
| Values.Get | stage_checkbox_question.py:96 | `d.get(key)` is None exactly when no entry has the key, and otherwise it is a value stored under the key |
| Values.GetOr | stage_checkbox_question.py:120-121 | `d.get(key) or default` is the stored value when it is truthy, and the default when the key is absent or its value falsy |
| Values.TextField | stage_checkbox_question.py:96-101 | `(d.get(key) or "").strip()`: an absent key gives "", a stored string gives its stripped form, and AttributeError is raised exactly for a truthy non-string |
| Values.ParseInt | stage_analyze.py:40 | `int(str)` succeeds exactly when the stripped text is an optional sign and one or more digits, and then gives their decimal value with that sign |
| Values.Truncate | png/chekbox.py:195 | `int(float)` rounds toward zero: the floor of a non-negative number, the ceiling of a negative one |
| Values.ToInt | stage_analyze.py:40 | `int(v)` is the identity on ints, 1 or 0 on bools, truncation toward zero on floats, and ParseInt's reading of a str, with ValueError exactly when ParseInt rejects it; TypeError on None, lists and dicts, and no other exception for representable values |
| Values.ToFloat | stage_grid.py:113 | `float(v)` is exact on ints and floats, 1.0 or 0.0 on bools, and ParseDecimal's reading of a str, with ValueError exactly when ParseDecimal rejects it; TypeError on None, lists and dicts |
| Values.ParseDecimalAccepts | stage_grid.py:113 | `float()` of a str succeeds exactly when the stripped text is an optional sign, then digits with at most one point among them, at least one a digit |
| Values.UnsignedDecimalAccepts | stage_grid.py:113 | the unsigned part is read exactly when it is digits with at most one point, one of them a digit |
| Values.ParseDecimalWhole | stage_grid.py:113 | a signed run of digits reads as its integer value with that sign |
| Values.ParseDecimalPoint | stage_grid.py:113 | sign, digits w, a point and digits f read as the integer the digits of w and f spell, divided by ten to the power of the length of f, with that sign |
| Values.DigitsAppend | stage_grid.py:113 | the value of the digits of a then b is a's value shifted left by b's length plus b's value |
| Values.Iterate | stage_analyze.py:38 | iteration fails with TypeError exactly on None, bools and numbers; a list yields its items, a str its one-character strings and a dict its keys, in order |
| Values.IterateOrEmpty | stage_analyze.py:38 | `for x in (v or [])` yields nothing for a falsy value and iterates a truthy value itself |
| Sorting.SortedUnique | stage_analyze.py:48-50 | the result is strictly ascending with exactly the input's elements |
| Sorting.AscendingUnique | stage_analyze.py:50 | two strictly ascending lists with the same elements are equal, so `sorted(set)` is determined by the set |
| Sorting.SortedMembers | stage_analyze.py:208 | the clamp is strictly ascending and holds exactly the chosen indices that are in the order |
| Sorting.KeepMembers | stage_grid.py:120 | filtering sorted keys by a set keeps exactly the members and keeps them sorted |
| Core.CutAtSeparators | core.py:139-141 | the prefix before the first ",", ";" or "/": it holds none of them, and one of them follows it unless it is the whole string |
| Core.LeadingWord | core.py:142-144 | all-space input is kept as it is; the word uses only characters of its input |
| Core.LeadingWordIsFirst | core.py:142-144 | unless the input is all whitespace, the word kept is its first whitespace-delimited word |
| Core.NormalizeLabel | core.py:129-146 | the result holds only lowered alphanumeric characters, and empty or all-space input gives "" |
| Core.NormalCharIsPlain | core.py:139-145 | a normal character is not whitespace, ",", ";" or "/" |
| Core.KeepAlnumKeepsNormal | core.py:145 | the alphanumeric filter leaves a normal string unchanged |
| Core.NormalIsStripped | core.py:136 | stripping leaves a normal string unchanged |
| Core.NormalIsLowered | core.py:136 | lower-casing leaves a normal string unchanged |
| Core.NormalIsOneWord | core.py:139-144 | cutting at separators and taking the first word leave a normal string unchanged |
| Core.NormalizeLabelIdempotent | core.py:129-146 | normalising twice equals normalising once |
| Core.NormalFixpoint | core.py:129-146 | the normal strings are exactly the strings normalisation leaves unchanged |
| Core.NormalizeLabelKeeps | core.py:129-146 | the result is exactly the alphanumeric characters, in order, of the first whitespace-delimited word of the stripped, lower-cased label cut before its first ",", ";" or "/"; it is "" when that cut holds no word |
| Core.SimilarNeedsBoth | core.py:154-157 | an empty label is similar to nothing, "" to "" included, and a non-empty label is similar to itself |
| Core.SimilarBySubstring | core.py:158-159 | labels of length at least 3 where one contains the other are similar, in both argument orders |
| Core.SimilarSymmetric | core.py:154-161 | with a symmetric ratio, similarity is symmetric |
| Core.SimilarNotSymmetric | core.py:160-161 | for some asymmetric ratio, "ab" is similar to "ba" but not the other way round |
| Core.Matched | core.py:170-174 | a category is found iff one of its words matches the text, as a whole word or as a substring |
| Core.ScanTaxonomy | core.py:169-175 | the nested loop with `break` finds exactly the matched categories |
| Core.DetectCategoriesInText | core.py:164-175 | the result is the set of categories with a whole-word match in the lower-cased text |
| Core.CategoriesFromLabel | core.py:178-189 | the result is the set of categories with a substring match in the lower-cased label |
| Core.HintTokensAreRuns | core.py:230-233 | the tokens are exactly the maximal runs of `[a-zа-яё]` characters in the hint, in order |
| Core.MappedTokens | core.py:210-236 | a category is given iff some token is in the override table and maps to it |
| Core.MapTokens | core.py:230-236 | the token loop adds exactly the mapped categories of the tokens |
| Core.CategoriesFromCreatureHint | core.py:192-238 | an empty hint gives no category; otherwise the label categories plus the mapped tokens |
| Core.TaxonomyNames | core.py:63-98 | every taxonomy entry is named by one of the nine sorted keys |
| Core.CategoriesWithinTaxonomy | core.py:164-238 | all three extractors return taxonomy keys only |
| Core.WholeWordImpliesSubstring | core.py:172-186 | whole-word matching finds a subset of the categories substring matching finds |
| Core.TextCategoriesWithinLabelCategories | core.py:164-189 | `detect_categories_in_text(t)` is a subset of `categories_from_label(t)` |
| Core.CategoriesOfEmpty | core.py:164-199 | empty task text and an empty hint give no category |
| Core.MouseIsAmbiguous | core.py:75-95 | "мышь" is classified both as mammal and as computer_accessory |
| Core.SortedNamesAscending | core.py:63-98 | the taxonomy keys in `sorted()` order are strictly ascending |
| Core.SortCategories | stage_grid.py:120 | `sorted(list(cats))` is ascending and holds exactly `cats` |
| Core.Find | core.py:113 | `find("{")` is -1 exactly when there is no brace; otherwise it is the first brace |
| Core.ScanJsonObject | core.py:112-126 | the scan reports a missing opening brace exactly when the text has no "{" |
| Core.CloseFromMeaning | core.py:116-125 | the scan closes at the first end where the brace depth is back to 0; when it does not close, the depth stays positive |
| Core.ScanCandidate | core.py:117-125 | the candidate is the first balanced slice from the first "{": it starts with "{" and ends with "}" |
| Core.ScanUnbalanced | core.py:126 | an unbalanced result means the depth never returns to 0 after the first "{" |
| Core.BalancedSliceCloses | core.py:121-124 | the first balanced slice from a "{" ends with "}" |
| Core.ExtractJsonObject | core.py:112-126 | the loop raises "JSON start '{' not found in output", raises "Balanced JSON not found", or returns the candidate slice, as the scan says |
| TemplateUtils.TemplateError | template_utils.py:12-20 | only a readable template gives no error |
| TemplateUtils.PlaceAt | template_utils.py:26-27 | the box starts at the match location and has the template's size |
| TemplateUtils.MatchBestTemplate | template_utils.py:11-30 | a missing file raises FileNotFoundError and an unreadable one RuntimeError; otherwise the result is the crop at the match location, of the template's size, with the raw score |
| TemplateUtils.ScaledSize | template_utils.py:57-58 | a scaled size is at least 1 and equals the scaled value when that is at least 1 |
| TemplateUtils.CropAtScale | template_utils.py:57-63 | the crop at one scale sits at that scale's match location, has the scaled size (at least 1×1) and carries that match's score |
| TemplateUtils.BestOverScales | template_utils.py:55-65 | nothing is found iff no score beats -1.0; otherwise the result is the first scale to reach the maximum score |
| TemplateUtils.MatchTemplateMultiscale | template_utils.py:33-70 | file errors as above; TypeError iff no scale scores above -1.0; otherwise the crop of the first best scale |
| TemplateUtils.DefaultScales | template_utils.py:42-43 | the default sweep is the seven factors 0.85 + 0.05·i |
| Polling.FirstAtLeast | stage_grid.py:50-63 | polling succeeds iff some capture reaches the threshold, and then it returns the first one; a matcher error met before any capture reaches the threshold is the result; otherwise it times out |
| StageGrid.AfterDeadline | stage_grid.py:68-77 | after the deadline the best match is used iff it scores at least 0.24; otherwise TimeoutError |
| StageGrid.RelaxedFallbackUnreachable | stage_grid.py:60-77 | when every score was below the primary threshold, the fallback always times out |
| StageGrid.PollGrid | stage_grid.py:44-77 | the polling loop's outcome is the first capture reaching MATCH_THRESHOLD_GRID, else the first error, else the timeout |
| StageGrid.SpanOf | stage_grid.py:85-94 | every coordinate falls into one of three spans |
| StageGrid.SpansPartition | stage_grid.py:85-94 | a coordinate lies in span k iff k is its span, so the spans cover the side with no overlap |
| StageGrid.SpanOrdered | stage_grid.py:91-94 | each span starts no later than it ends, and it ends within the side |
| StageGrid.SpanExample | stage_grid.py:85-94 | a side of 100 is cut at 0, 33, 66 and 100 |
| StageGrid.NarrowSide | stage_grid.py:85-93 | below 3 pixels the first two spans are empty and the last covers the side |
| StageGrid.TilesPartitionGrid | stage_grid.py:89-96 | a pixel of the grid lies in tile (r, c) iff r and c are its spans |
| StageGrid.CenterInTile | stage_grid.py:127 | a tile's centre lies in the tile's closed box |
| StageGrid.LabelConf | stage_grid.py:112-115 | the confidence is `float(lbl.get("conf") or 0.0)` when that converts, and 0.0 when the key is missing or the conversion raises |
| StageGrid.ConfDefaults | stage_grid.py:113-116 | missing, null and list confidences give 0.0, and 0.75 gives 0.75 |
| StageGrid.LabelTile | stage_grid.py:112-120 | the label is stripped and lower-cased, and a truthy non-string raises AttributeError; norm_label is its normal form; categories are its sorted label categories |
| StageGrid.TileObject | stage_grid.py:122-131 | object k has index k = row·3 + col |
| StageGrid.PartitionGrid | stage_grid.py:87-134 | nine objects in row-major order, or the first labelling failure |
| StageGrid.LabelGrid | stage_grid.py:83-139 | the report carries the panel's score and the nine labelled tiles of its size, or AttributeError from a label |
| StageGrid.CaptureGridObjects | stage_grid.py:29-140 | polling then labelling: polling's error, or a labelling error, or the report of the first panel reaching the threshold |
| StageCheckboxQuestion.CheckboxClick | stage_checkbox_question.py:26-51 | file errors as for templates; otherwise the click is the match location plus half the template size |
| StageCheckboxQuestion.CheckboxClickInsideMatch | stage_checkbox_question.py:41-47 | the click lies in the box of the matched template |
| StageCheckboxQuestion.CheckboxClickIgnoresScore | stage_checkbox_question.py:42-51 | no score threshold: matches at the same location click the same point |
| StageCheckboxQuestion.QuestionFrom | stage_checkbox_question.py:96-128 | AttributeError iff a text field is a truthy non-string; otherwise the text fields are stripped, the keyword lists are `data.get(key) or []`, the targets are the sorted union of text and both hint categories, and the exclusions are the sorted exclusion-hint categories |
| StageCheckboxQuestion.EmptyReplyQuestion | stage_checkbox_question.py:96-121 | an empty reply gives empty texts, empty keyword lists and no categories |
| StageCheckboxQuestion.CaptureQuestion | stage_checkbox_question.py:54-134 | the first panel scoring at least 0.30 is read; a matcher error propagates; otherwise TimeoutError |
| StageCheckboxQuestion.PollQuestion | stage_checkbox_question.py:67-71 | the polling loop returns the first capture scoring at least 0.30, a matcher error met before it, or else the timeout, as FirstAtLeast says |
| StageAnalyze.Accept | stage_analyze.py:39-47 | a raw value is accepted only as a member of the index order |
| StageAnalyze.SanitizeRules | stage_analyze.py:39-47 | a failed `int()` is dropped, a member is kept, a non-member in [0, len) is remapped positionally, anything else is dropped |
| StageAnalyze.KeptMeaning | stage_analyze.py:38-49 | an index is collected iff some item yields it |
| StageAnalyze.AcceptedMeaning | stage_analyze.py:38-47 | an index is accepted iff some raw value is accepted as it, and it is then in the order |
| StageAnalyze.AcceptedWithin | stage_analyze.py:43-47 | the accepted indices are within the order |
| StageAnalyze.SanitizedIndexes | stage_analyze.py:36-50 | TypeError iff the value is truthy and not iterable; otherwise strictly ascending, within the order and exactly the accepted indices |
| StageAnalyze.CollectAccepted | stage_analyze.py:37-49 | the append loop collects exactly the accepted indices with no duplicates |
| StageAnalyze.SanitizeIndexes | stage_analyze.py:36-50 | the loop and the final `sorted` compute the sanitised indices |
| StageAnalyze.ExampleAccepted | stage_analyze.py:39-49 | with order [0,2,5,7], the values 1, 2, 9 and None are accepted as 2, 2 and nothing |
| StageAnalyze.SanitizeExample | stage_analyze.py:36-50 | with order [0,2,5,7], [1, 2, 9, None] sanitises to [2] |
| StageAnalyze.EmptyListSanitized | stage_analyze.py:38-50 | an empty list sanitises to [] |
| StageAnalyze.VerifyWithVision | stage_analyze.py:104-110 | a non-dict reply reads as {}; it raises iff an index list is truthy and not iterable or the reason is a truthy non-string; correct and selected are `_sanitize_indexes` of `resp.get(key) or []` for their keys; "ok" is its truthiness; the reason is stripped |
| StageAnalyze.ObjectAt | stage_analyze.py:138 | the lookup finds an object with that index iff one exists |
| StageAnalyze.Where | stage_analyze.py:146-158 | the indices of exactly the objects that pass a test |
| StageAnalyze.CategoryFallback | stage_analyze.py:145-150 | only for an empty set with targets: every object sharing a target category |
| StageAnalyze.CreatureFallback | stage_analyze.py:152-158 | only for an empty set and a "creature" task: every confidently labelled living object |
| StageAnalyze.CategoryFilter | stage_analyze.py:160-173 | the filter only removes, never empties a non-empty set, keeps exactly the matching indices when there are any, and otherwise changes nothing |
| StageAnalyze.Expand | stage_analyze.py:175-189 | the expansion only adds; it acts only for an all-task with a non-empty set, adding objects with a similar label or a shared category |
| StageAnalyze.Birdhouse | stage_analyze.py:191-206 | for a birdhouse example the set becomes exactly the bird-like objects, even if that is none |
| StageAnalyze.AddPassing | stage_analyze.py:145-189 | the object loops add exactly the indices of the passing objects |
| StageAnalyze.BirdOnly | stage_analyze.py:193-205 | the loop collects exactly the bird-like objects |
| StageAnalyze.ApplyPostFilters | stage_analyze.py:137-208 | the result is strictly ascending and is the filter chain's set clamped to the order |
| StageAnalyze.TileAction | stage_analyze.py:76-87 | a tile is clicked iff it is detected with score at least 0.68; a score is logged iff it was detected, and it is the detection's score |
| StageAnalyze.TileActions | stage_analyze.py:74-87 | one log entry per index, in input order |
| StageAnalyze.ActionLog.constructor | stage_analyze.py:213 | the actions log starts empty |
| StageAnalyze.ActionLog.ClickTiles | stage_analyze.py:74-87 | the log grows by exactly the entries of the indices, in order |
| StageAnalyze.ActionLog.RepairRound | stage_analyze.py:243-248 | a repair round logs the "add" clicks of the missed tiles, then the "remove" clicks of the extra ones |
| StageAnalyze.Minus | stage_analyze.py:223-224 | a set difference in list form |
| StageAnalyze.AttemptOf | stage_analyze.py:221-235 | an attempt record has correct falling back to chosen, missed = correct − selected and extra = selected − correct, all sorted |
| StageAnalyze.RecordsDetermined | stage_analyze.py:221-235 | those rules determine the record |
| StageAnalyze.MissedExtraDisjoint | stage_analyze.py:223-224 | missed and extra are disjoint |
| StageAnalyze.ConvergedMeansAgreement | stage_analyze.py:236-237 | an attempt converges iff ok is set and the correct set equals the selected set |
| StageAnalyze.Assess | stage_analyze.py:221-242 | records the attempt; passes iff converged; stops iff converged, out of rounds or grid changed; notes grid_changed only then |
| StageAnalyze.RepairLogAttempts | stage_analyze.py:243-248 | every logged action carries the attempt of its round |
| StageAnalyze.AllRepairedMeaning | stage_analyze.py:215-248 | each record before the last is its own attempt's repair round |
| StageAnalyze.FailsAfterRepairs | stage_analyze.py:219-220 | a raising check after repair rounds is the first check to raise |
| StageAnalyze.RepairLogBefore | stage_analyze.py:243-248 | the repair actions come from attempts before the current one |
| StageAnalyze.CompletesAfterRepairs | stage_analyze.py:236-249 | repair rounds followed by a stopping attempt make a completed run |
| StageAnalyze.RepairLoop | stage_analyze.py:211-249 | either the error of the attempt the loop reached, after repair rounds for every earlier attempt, or a run of at most 3 attempts: all but the last repaired, the last stopping, passed iff it converged, and actions only from the repair rounds |
| StageAnalyze.VerificationLoop | stage_analyze.py:211-249 | the same with `_verify_with_vision` as the check |
| Chekbox.ExtractJsonObject | png/chekbox.py:34-56 | the same scan as core's, with "Balanced JSON object not found in output" for an unbalanced text |
| Chekbox.Coordinate | png/chekbox.py:131-132 | a missing key reads -1; a stored value goes through `int()` (so an int reads as itself); for representable values only TypeError or ValueError can be raised |
| Chekbox.CheckboxCenter | png/chekbox.py:112-133 | the centre is the pair of coordinates, and fails iff one of them fails |
| Chekbox.ClickCheckbox | png/chekbox.py:136-147 | clicks iff both coordinates are at least 0, at that point |
| Chekbox.MissingCoordinateSkips | png/chekbox.py:131-144 | a missing coordinate means no click |
| Chekbox.IntegerCenterClicked | png/chekbox.py:131-147 | non-negative integer coordinates are clicked as given |
| Chekbox.ItemPoint | png/chekbox.py:194-199 | an item gives a point iff both `int()` calls succeed |
| Chekbox.Points | png/chekbox.py:192-199 | AttributeError iff some item is not a dict, and at most one point per item |
| Chekbox.PointsFromItems | png/chekbox.py:192-199 | every point is read from some dict item |
| Chekbox.PointsKeepReadable | png/chekbox.py:192-199 | when every item is readable, one point per item, in order |
| Chekbox.PointsSelects | png/chekbox.py:192-199 | the points are, in order, exactly what each item that yields a point gives |
| Chekbox.AnswerClicks | png/chekbox.py:152-201 | a missing "clicks" gives []; a non-iterable one raises TypeError; otherwise the points of its items |
| Chekbox.FindAnswerClicks | png/chekbox.py:152-201 | the append loop computes the answer clicks |
| Chekbox.ClickAnswers | png/chekbox.py:204-216 | one click per returned coordinate in order, none for an empty list |
| Chekbox.ExamplePoints | png/chekbox.py:192-199 | items read as (10,20), nothing, nothing, (3,4) give the two points in order |
| Chekbox.AnswerClicksExample | png/chekbox.py:192-201 | a reply with a good item, a missing y, a list x and a float x gives [(10,20), (3,4)] |

## Left out

- Vision and OpenAI calls (`vision_json`, `_call_openai_vision`, `vision_agent.py`) are not modelled. Their replies are inputs, and `_load_image_b64` and `get_prompt` are not part of this model.
- Image numerics are not modelled: `cv2.matchTemplate`, `minMaxLoc`, `resize`, PIL crops, `img_to_b64`. A match is an abstract `Matcher`. The float product `int(shape * s)` is an abstract `scaleDim`; only its `max(1, ·)` bound is modelled.
- `difflib.SequenceMatcher.ratio` is an uninterpreted parameter.
- Screenshots, `pyautogui` moves and clicks, `time.sleep` and `time.time` deadlines are not modelled. A click is a logged action record or a returned point. A deadline is the finite sequence of captures taken before it.
- `_locate_tiles` is not modelled: the detections of each attempt are an input, `observe(k)`.
- `_click_next_button`, `last_img` and the saving of tiles and JSON files are not modelled. Neither is the orchestration in `analyze_json_and_click_by_images`, `run_flow` and `main.py`.
- `donttouch.py`, `stage_next_done.py`, `config.py`, `chrome_utils.py` and `pyauto_ui.py` are not part of this model.
- `json.loads` of the candidate slice is not modelled: both brace scanners return the slice.
- `_call_openai_vision`'s fallback path is not modelled. The `data` of the second flow is taken to be a dict.
- Character classes cover ASCII and basic Cyrillic only (U+0400..U+045F): `lower`, `isalnum`, `\w`. Other scripts are outside the model.
- Values.ParseInt: reads an optional sign and ASCII decimal digits. Python's `int()` also accepts underscores between digits and non-ASCII digits; the model rejects those with ValueError.
- Values.ParseDecimal: reads positional decimals only. Python's `float()` also accepts exponents (`1e3`), `inf`, `nan` and underscores; the model rejects those with ValueError, so a `conf` written that way reads as 0.0 in StageGrid.LabelConf.
- The post filters take typed `GridObject` and `Question` inputs instead of raw dicts. A malformed `index` or `categories` field in `objects` or `question` is not modelled.
- A JSON object is a list of key/value pairs standing for the parsed dict, whose keys are distinct. A reply that repeats a key is not modelled (`json.loads` keeps the last value).
- Values.ToInt: JSON numbers are finite in the model. `NaN`, `Infinity` and numbers beyond the float range are not represented, so the OverflowError of `int(float('inf'))`, which png/chekbox.py:131-132 and 195-197 do not catch, is not modelled. The same holds for Chekbox.Coordinate and Chekbox.ItemPoint.
- Values.ToFloat: integers too large for a float are not singled out, so the OverflowError of `float()` on them, which stage_grid.py:113-116 does not catch, is not modelled. The same holds for StageGrid.LabelConf.
- Sets built by the source's loops (`chosen_set`, `label_pool`, `cat_pool`) are modelled as sets. Their iteration order is not modelled, and it does not affect the results.
- StageGrid.PollGrid: its contract states the outcome, not the running best score and image. The best-so-far invariant is kept in the loop only, because the fallback that reads it never fires.
