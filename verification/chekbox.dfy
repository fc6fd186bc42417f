/**
 * The older checkbox flow: the vision model is asked for the checkbox centre
 * and for the centres of the answer objects, and the replies are coerced to
 * pixel coordinates. The model's replies are inputs; the mouse is modelled
 * by the list of points clicked.
 */
module Chekbox {

  import opened Wrappers
  import opened Selection
  import opened Values
  import opened Core

  // ---------------------------------------------------------------------------
  // _extract_json_object

  const BALANCE_MESSAGE: string := "Balanced JSON object not found in output"

  /**
   * The fallback parser of this flow: the same brace scan as
   * extract_json_object, reporting an unbalanced object with its own message.
   * json.loads of the candidate is not modelled: the slice is returned.
   */
  method ExtractJsonObject(text: string) returns (r: Result<string>)
    ensures ScanJsonObject(text) == NoOpenBrace ==>
      r == Err(ValueError("JSON start '{' not found in output"))
    ensures ScanJsonObject(text) == Unbalanced ==> r == Err(ValueError(BALANCE_MESSAGE))
    ensures ScanJsonObject(text).Candidate? ==> r == Ok(ScanJsonObject(text).slice)
  {
    r := Core.ExtractJsonObject(text);
    if ScanJsonObject(text) == Unbalanced {
      r := Err(ValueError(BALANCE_MESSAGE));
    }
  }

  // ---------------------------------------------------------------------------
  // find_checkbox_center, click_checkbox

  /** int(data.get(key, -1)) */
  function Coordinate(data: Fields, key: string): (r: Result<int>)
    ensures Get(data, key).None? ==> r == Ok(-1)
    ensures Get(data, key) == Some(Int(-1)) ==> r == Ok(-1)
    ensures Get(data, key).Some? && Get(data, key).value.Int? ==> r == Ok(Get(data, key).value.i)
    ensures Get(data, key).Some? ==> r == ToInt(Get(data, key).value)
    ensures r.Err? ==> r.error == TypeError || r.error.ValueError?
  {
    ToInt(GetDefault(data, key, Int(-1)))
  }

  /** The checkbox centre the reply `data` names; a missing coordinate reads as -1. */
  function CheckboxCenter(data: Fields): (r: Result<(int, int)>)
    ensures r.Ok? <==> Coordinate(data, "x").Ok? && Coordinate(data, "y").Ok?
    ensures r.Ok? ==> r.value == (Coordinate(data, "x").value, Coordinate(data, "y").value)
    ensures r.Err? ==> r.error == TypeError || r.error.ValueError?
  {
    match Coordinate(data, "x")
    case Err(e) => Err(e)
    case Ok(x) =>
      match Coordinate(data, "y")
      case Err(e) => Err(e)
      case Ok(y) => Ok((x, y))
  }

  /**
   * click_checkbox: the point clicked, or None when a coordinate is negative
   * (the "not found" answer). A coercion error propagates.
   */
  function ClickCheckbox(data: Fields): (r: Result<Option<(int, int)>>)
    ensures r.Err? <==> CheckboxCenter(data).Err?
    ensures r.Ok? ==> var p := CheckboxCenter(data).value;
      (r.value.Some? <==> p.0 >= 0 && p.1 >= 0) && (r.value.Some? ==> r.value.value == p)
  {
    match CheckboxCenter(data)
    case Err(e) => Err(e)
    case Ok(p) => if p.0 < 0 || p.1 < 0 then Ok(None) else Ok(Some(p))
  }

  /** A reply without one of the coordinates clicks nothing. */
  lemma MissingCoordinateSkips(data: Fields)
    requires Get(data, "x").None? || Get(data, "y").None?
    requires CheckboxCenter(data).Ok?
    ensures ClickCheckbox(data) == Ok(None)
  {
  }

  /** A reply with two non-negative integers is clicked exactly there. */
  lemma IntegerCenterClicked(data: Fields, x: int, y: int)
    requires Get(data, "x") == Some(Int(x)) && Get(data, "y") == Some(Int(y))
    requires x >= 0 && y >= 0
    ensures ClickCheckbox(data) == Ok(Some((x, y)))
  {
  }

  // ---------------------------------------------------------------------------
  // find_answer_clicks, click_answers

  /** The point of one click item when both int(item.get("x")) and int(item.get("y")) succeed. */
  function ItemPoint(item: Fields): (r: Option<(int, int)>)
    ensures r.Some? <==> ToInt(GetDefault(item, "x", Null)).Ok? && ToInt(GetDefault(item, "y", Null)).Ok?
    ensures r.Some? ==> r.value == (ToInt(GetDefault(item, "x", Null)).value, ToInt(GetDefault(item, "y", Null)).value)
  {
    match ToInt(GetDefault(item, "x", Null))
    case Err(_) => None
    case Ok(x) =>
      match ToInt(GetDefault(item, "y", Null))
      case Err(_) => None
      case Ok(y) => Some((x, y))
  }

  /** Some item of `items` is not a dict, so item.get raises. */
  predicate SomeNotDict(items: seq<Value>) {
    exists k :: 0 <= k < |items| && !items[k].Dict?
  }

  /**
   * The points `point` reads from the click items, in order: an item it reads
   * nothing from is skipped, an item that is not a dict raises AttributeError.
   */
  function Points<T>(items: seq<Value>, point: Fields -> Option<T>): (r: Result<seq<T>>)
    ensures r.Err? <==> SomeNotDict(items)
    ensures r.Err? ==> r.error == AttributeError
    ensures r.Ok? ==> |r.value| <= |items|
  {
    if items == [] then Ok([])
    else
      var init := items[..|items| - 1];
      var last := items[|items| - 1];
      assert forall k :: 0 <= k < |init| ==> init[k] == items[k];
      assert SomeNotDict(init) ==> SomeNotDict(items);
      match Points(init, point)
      case Err(e) => Err(e)
      case Ok(ps) =>
        if !last.Dict? then Err(AttributeError)
        else
          match point(last.entries)
          case None => Ok(ps)
          case Some(p) => Ok(ps + [p])
  }

  /** What `point` reads from one click item; only a dict has fields to read. */
  function ItemPick<T>(point: Fields -> Option<T>): Value -> Option<T> {
    (v: Value) => if v.Dict? then point(v.entries) else None
  }

  /**
   * Points keeps, in order, exactly the items `point` reads something from,
   * and from each of them what it reads.
   */
  lemma {:induction false} PointsSelects<T>(items: seq<Value>, point: Fields -> Option<T>)
    requires Points(items, point).Ok?
    ensures exists ks :: Selects(items, ItemPick(point), ks, Points(items, point).value)
  {
    var pick := ItemPick(point);
    if items == [] {
      SelectsEmpty(pick);
      assert Selects(items, pick, [], Points(items, point).value);
    } else {
      var init, last := items[..|items| - 1], items[|items| - 1];
      assert items == init + [last];
      PointsSelects(init, point);
      var ps := Points(init, point).value;
      var ks :| Selects(init, pick, ks, ps);
      SelectsAppend(init, pick, ks, ps, last);
      if point(last.entries).Some? {
        assert Points(items, point).value == ps + [point(last.entries).value];
        assert Selects(items, pick, ks + [|init|], Points(items, point).value);
      } else {
        assert Selects(items, pick, ks, Points(items, point).value);
      }
    }
  }

  /** Every point is read from a dict item. */
  lemma {:induction false} PointsFromItems<T>(items: seq<Value>, point: Fields -> Option<T>)
    requires Points(items, point).Ok?
    ensures forall j :: 0 <= j < |Points(items, point).value| ==>
      exists k :: 0 <= k < |items| && items[k].Dict? && point(items[k].entries) == Some(Points(items, point).value[j])
  {
    if items != [] {
      var init := items[..|items| - 1];
      assert forall k :: 0 <= k < |init| ==> init[k] == items[k];
      PointsFromItems(init, point);
    }
  }

  /** When every item is a dict that `point` reads, every item gives its point, in order. */
  lemma {:induction false} PointsKeepReadable<T>(items: seq<Value>, point: Fields -> Option<T>)
    requires forall k :: 0 <= k < |items| ==> items[k].Dict? && point(items[k].entries).Some?
    ensures Points(items, point).Ok?
    ensures |Points(items, point).value| == |items|
    ensures forall k :: 0 <= k < |items| ==> Points(items, point).value[k] == point(items[k].entries).value
  {
    if items != [] {
      var init := items[..|items| - 1];
      assert forall k :: 0 <= k < |init| ==> init[k] == items[k];
      PointsKeepReadable(init, point);
    }
  }

  /** What find_answer_clicks returns for the reply `data`; iterating a non-iterable "clicks" raises TypeError. */
  function AnswerClicks(data: Fields): (r: Result<seq<(int, int)>>)
    ensures Iterate(GetDefault(data, "clicks", List([]))).Err? ==> r == Err(TypeError)
    ensures Get(data, "clicks").None? ==> r == Ok([])
    ensures Iterate(GetDefault(data, "clicks", List([]))).Ok? ==>
      r == Points(Iterate(GetDefault(data, "clicks", List([]))).value, ItemPoint)
  {
    match Iterate(GetDefault(data, "clicks", List([])))
    case Err(e) => Err(e)
    case Ok(items) => Points(items, ItemPoint)
  }

  /** find_answer_clicks: the loop over the click items. */
  method FindAnswerClicks(data: Fields) returns (r: Result<seq<(int, int)>>)
    ensures r == AnswerClicks(data)
  {
    var iterated := Iterate(GetDefault(data, "clicks", List([])));
    if iterated.Err? {
      return Err(iterated.error);
    }
    var items := iterated.value;
    var clicks: seq<(int, int)> := [];
    for k := 0 to |items|
      invariant Points(items[..k], ItemPoint) == Ok(clicks)
    {
      assert items[..k + 1][..k] == items[..k];
      var item := items[k];
      if !item.Dict? {
        assert Points(items[..k + 1], ItemPoint) == Err(AttributeError);
        PointsErrorPersists(items, ItemPoint, k + 1);
        return Err(AttributeError);
      }
      var x := ToInt(GetDefault(item.entries, "x", Null));
      if x.Err? {
        continue;
      }
      var y := ToInt(GetDefault(item.entries, "y", Null));
      if y.Err? {
        continue;
      }
      clicks := clicks + [(x.value, y.value)];
    }
    assert items[..|items|] == items;
    return Ok(clicks);
  }

  /** Once a prefix raises, the whole list raises the same error. */
  lemma PointsErrorPersists<T>(items: seq<Value>, point: Fields -> Option<T>, n: nat)
    requires n <= |items|
    requires Points(items[..n], point).Err?
    ensures Points(items, point) == Points(items[..n], point)
  {
    assert SomeNotDict(items) by {
      var k :| 0 <= k < n && !items[..n][k].Dict?;
      assert items[k] == items[..n][k];
    }
  }

  /**
   * click_answers: the points clicked, one click per returned coordinate in
   * order, none when the list is empty.
   */
  method ClickAnswers(data: Fields) returns (clicked: Result<seq<(int, int)>>)
    ensures clicked == AnswerClicks(data)
  {
    var coords := FindAnswerClicks(data);
    if coords.Err? {
      return coords;
    }
    var points := ClickEach(coords.value);
    clicked := Ok(points);
  }

  /** The click loop: one click per target, in order. */
  method ClickEach(targets: seq<(int, int)>) returns (points: seq<(int, int)>)
    ensures points == targets
  {
    points := [];
    for k := 0 to |targets|
      invariant points == targets[..k]
    {
      points := points + [targets[k]];
    }
    assert targets[..|targets|] == targets;
  }

  /** Item by item: a missing y and a list-valued x give no point, a float is truncated. */
  lemma ExampleItemPoints()
    ensures ItemPoint([("x", Int(10)), ("y", Int(20))]) == Some((10, 20))
    ensures ItemPoint([("x", Int(5))]) == None
    ensures ItemPoint([("x", List([])), ("y", Int(1))]) == None
    ensures ItemPoint([("x", Num(3.7)), ("y", Int(4))]) == Some((3, 4))
  {
    assert Truncate(3.7) == 3;
  }

  /** One more dict item appends its point, if `point` reads one. */
  lemma PointsAppend<T>(items: seq<Value>, item: Fields, point: Fields -> Option<T>)
    requires Points(items, point).Ok?
    ensures Points(items + [Dict(item)], point) ==
      Ok(Points(items, point).value + (if point(item).Some? then [point(item).value] else []))
  {
    var all := items + [Dict(item)];
    assert all[..|all| - 1] == items;
    var ps := Points(items, point).value;
    assert ps + [] == ps;
    assert Points(all, point) == match point(item) case None => Ok(ps) case Some(p) => Ok(ps + [p]);
  }

  /** Four dict items of which `point` reads the first and the last give those two points, in order. */
  lemma ExamplePoints(a: Fields, b: Fields, c: Fields, d: Fields, point: Fields -> Option<(int, int)>)
    requires point(a) == Some((10, 20)) && point(b) == None && point(c) == None && point(d) == Some((3, 4))
    ensures Points([Dict(a), Dict(b), Dict(c), Dict(d)], point) == Ok([(10, 20), (3, 4)])
  {
    var none: seq<Value> := [];
    var p0: seq<(int, int)> := [];
    var p1: seq<(int, int)> := [(10, 20)];
    assert Points(none, point) == Ok(p0) && p0 + [(10, 20)] == p1;
    PointsAppend(none, a, point);
    assert none + [Dict(a)] == [Dict(a)];
    assert Points([Dict(a)], point) == Ok(p1);
    PointsAppend([Dict(a)], b, point);
    assert [Dict(a)] + [Dict(b)] == [Dict(a), Dict(b)];
    assert Points([Dict(a), Dict(b)], point) == Ok(p1);
    PointsAppend([Dict(a), Dict(b)], c, point);
    assert [Dict(a), Dict(b)] + [Dict(c)] == [Dict(a), Dict(b), Dict(c)];
    assert Points([Dict(a), Dict(b), Dict(c)], point) == Ok(p1);
    PointsAppend([Dict(a), Dict(b), Dict(c)], d, point);
    assert [Dict(a), Dict(b), Dict(c)] + [Dict(d)] == [Dict(a), Dict(b), Dict(c), Dict(d)];
    assert p1 + [(3, 4)] == [(10, 20), (3, 4)];
  }

  /** A reply with four click items: a missing y and a list-valued x are skipped, a float is truncated. */
  lemma AnswerClicksExample()
    ensures AnswerClicks([("clicks", List([Dict([("x", Int(10)), ("y", Int(20))]),
                                           Dict([("x", Int(5))]),
                                           Dict([("x", List([])), ("y", Int(1))]),
                                           Dict([("x", Num(3.7)), ("y", Int(4))])]))])
      == Ok([(10, 20), (3, 4)])
  {
    var a := [("x", Int(10)), ("y", Int(20))];
    var b := [("x", Int(5))];
    var c := [("x", List([])), ("y", Int(1))];
    var d := [("x", Num(3.7)), ("y", Int(4))];
    ExampleItemPoints();
    ExamplePoints(a, b, c, d, ItemPoint);
    var items := [Dict(a), Dict(b), Dict(c), Dict(d)];
    assert GetDefault([("clicks", List(items))], "clicks", List([])) == List(items);
  }
}
