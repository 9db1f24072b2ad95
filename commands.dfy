/** The argument decoding done inside individual commands of
    src/plugin_weykthree.ts: camera-up directions, rectangles, buffer usage
    names, rotation axes and the `||`-default option chains of the plane
    geometry command. The library calls the decoded values feed are not
    modelled. */
module Commands {
  import opened JsValues
  import opened WeykThree

  // ---------------------------------------------------------------------------
  // Camera up direction

  /** The strings the camera-up command accepts: a sign followed by an axis letter. */
  const UpNames: set<string> := {"+X", "-X", "+Y", "-Y", "+Z", "-Z"}

  /** The unit vector along `axis` ('X', 'Y' or 'Z'), pointing the way `positive` says. */
  function UnitAxis(axis: char, positive: bool): (v: XYZ)
    requires axis in {'X', 'Y', 'Z'}
  {
    var one := if positive then Num(1.0) else Num(-1.0);
    XYZ(if axis == 'X' then one else Num(0.0),
        if axis == 'Y' then one else Num(0.0),
        if axis == 'Z' then one else Num(0.0))
  }

  /** TJSカメラ上方設定: a direction string picks a signed unit axis; any other
      value goes through parsePos, and a value it rejects is an error. */
  method CameraUpDirection(w: WeykThreeSystem, vec: JsVal) returns (r: Result<XYZ>)
    ensures vec.Str? ==> (r.Ok? <==> vec.s in UpNames)
    ensures vec.Str? && r.Ok? ==> r.value == UnitAxis(vec.s[1], vec.s[0] == '+')
    ensures vec.Str? && r.Err? ==> r.error == BadUpDirection
    ensures !vec.Str? ==> (r.Ok? <==> PosShaped(vec))
    ensures !vec.Str? && vec.IsPrimitive() ==> r == Err(TypeError)
    ensures !vec.Str? && !vec.IsPrimitive() && !PosShaped(vec) ==> r == Err(BadUpDirection)
    ensures vec.Arr? && |vec.items| == 3 ==> r == Ok(XYZ(vec.items[0], vec.items[1], vec.items[2]))
    ensures !vec.Arr? && PosShaped(vec) ==>
              r == Ok(XYZ(Force(vec.Get("x")), Force(vec.Get("y")), Force(vec.Get("z"))))
  {
    if vec.Str? {
      if vec.s == "+X" {
        r := Ok(XYZ(Num(1.0), Num(0.0), Num(0.0)));
      } else if vec.s == "-X" {
        r := Ok(XYZ(Num(-1.0), Num(0.0), Num(0.0)));
      } else if vec.s == "+Y" {
        r := Ok(XYZ(Num(0.0), Num(1.0), Num(0.0)));
      } else if vec.s == "-Y" {
        r := Ok(XYZ(Num(0.0), Num(-1.0), Num(0.0)));
      } else if vec.s == "+Z" {
        r := Ok(XYZ(Num(0.0), Num(0.0), Num(1.0)));
      } else if vec.s == "-Z" {
        r := Ok(XYZ(Num(0.0), Num(0.0), Num(-1.0)));
      } else {
        r := Err(BadUpDirection);
      }
    } else {
      var pos := w.ParsePos(vec);
      if pos.Err? {
        return Err(pos.error);
      }
      if pos.value.None? {
        return Err(BadUpDirection);
      }
      r := Ok(pos.value.value);
    }
  }

  // ---------------------------------------------------------------------------
  // Rectangle

  /** The four edges the rectangle command assigns to the camera. */
  datatype Rect = Rect(left: JsVal, top: JsVal, right: JsVal, bottom: JsVal)

  /** TJSカメラ矩形距離設定: a 4-element array is read as [left, top, right,
      bottom]; otherwise an object with `left` gives its four named fields;
      `'left' in rect` throws on a primitive or nullish value. */
  function RectFromArg(rect: JsVal): (r: Result<Rect>)
    ensures rect.Arr? && |rect.items| == 4 ==>
              r == Ok(Rect(rect.items[0], rect.items[1], rect.items[2], rect.items[3]))
    ensures !(rect.Arr? && |rect.items| == 4) ==> (r.Err? && r.error == TypeError <==> !rect.IsObject())
    ensures !(rect.Arr? && |rect.items| == 4) && rect.IsObject() ==> (r.Ok? <==> "left" in rect.Keys())
    ensures !(rect.Arr? && |rect.items| == 4) && r.Ok? ==>
              r.value == Rect(rect.Get("left"), rect.Get("top"), rect.Get("right"), rect.Get("bottom"))
    ensures r.Err? ==> r.error in {TypeError, BadRect}
  {
    if rect.Arr? && |rect.items| == 4 then
      Ok(Rect(rect.items[0], rect.items[1], rect.items[2], rect.items[3]))
    else
      match HasProp(rect, "left")
      case Err(e) => Err(e)
      case Ok(hasLeft) =>
        if hasLeft then Ok(Rect(rect.Get("left"), rect.Get("top"), rect.Get("right"), rect.Get("bottom")))
        else Err(BadRect)
  }

  /** The object form of a rectangle: its edges under their own names. */
  function RectObject(e: Rect): (v: JsVal)
    ensures v.IsObject() && v.Keys() == {"left", "top", "right", "bottom"}
  {
    Obj(map["left" := e.left, "top" := e.top, "right" := e.right, "bottom" := e.bottom])
  }

  /** The array form and the object form of the same rectangle decode alike:
      the array order is left, top, right, bottom. */
  lemma RectFormsAgree(e: Rect)
    ensures RectFromArg(Arr([e.left, e.top, e.right, e.bottom])) == Ok(e)
    ensures RectFromArg(RectObject(e)) == Ok(e)
  {
  }

  // ---------------------------------------------------------------------------
  // Buffer usage

  /** What TJS変更有無設定 hands to setUsage. */
  datatype Usage = DynamicDraw | StaticDraw | NoUsage | AsGiven(v: JsVal)

  const DynamicNames: seq<string> := ["頻繁", "動的", "有り", "有", "Dynamic", "DynamicDrawUsage"]
  const StaticNames: seq<string> := ["静的", "無し", "無", "Static", "StaticDrawUsage"]

  /** A string names the dynamic or the static usage, or no usage at all;
      any other value is passed through unchanged. */
  function UsageFromOption(opt: JsVal): (u: Usage)
    ensures !opt.Str? <==> u == AsGiven(opt)
    ensures opt.Str? ==> (u == DynamicDraw <==> opt.s in DynamicNames)
    ensures opt.Str? ==> (u == StaticDraw <==> opt.s in StaticNames)
    ensures opt.Str? ==> (u == NoUsage <==> opt.s !in DynamicNames && opt.s !in StaticNames)
  {
    if opt.Str? then
      if opt.s == "頻繁" || opt.s == "動的" || opt.s == "有り" || opt.s == "有" || opt.s == "Dynamic" || opt.s == "DynamicDrawUsage" then
        DynamicDraw
      else if opt.s == "静的" || opt.s == "無し" || opt.s == "無" || opt.s == "Static" || opt.s == "StaticDrawUsage" then
        StaticDraw
      else
        NoUsage
    else
      AsGiven(opt)
  }

  // ---------------------------------------------------------------------------
  // Rotation axis

  datatype Axis = X | Y | Z

  /** TJS回転 accepts each axis letter in either case. */
  function RotationAxis(axis: string): (r: Result<Axis>)
    ensures r.Ok? <==> axis in {"X", "x", "Y", "y", "Z", "z"}
    ensures r.Err? ==> r.error == BadAxis
    ensures r.Ok? ==> |axis| == 1
    ensures r == Ok(X) <==> axis in {"X", "x"}
    ensures r == Ok(Y) <==> axis in {"Y", "y"}
  {
    if axis == "X" || axis == "x" then Ok(X)
    else if axis == "Y" || axis == "y" then Ok(Y)
    else if axis == "Z" || axis == "z" then Ok(Z)
    else Err(BadAxis)
  }

  // ---------------------------------------------------------------------------
  // `||`-default option chains

  /** `opts[n0] || opts[n1] || … || fallback`: the first truthy option among
      `names`, else the fallback. */
  function OptionOr(opts: JsVal, names: seq<string>, fallback: JsVal): (r: JsVal)
    requires !opts.IsNullish()
    ensures (exists i :: 0 <= i < |names| && Truthy(opts.Get(names[i])) && r == opts.Get(names[i])
                         && forall j :: 0 <= j < i ==> !Truthy(opts.Get(names[j])))
            || (r == fallback && forall j :: 0 <= j < |names| ==> !Truthy(opts.Get(names[j])))
  {
    if names == [] then fallback
    else if Truthy(opts.Get(names[0])) then opts.Get(names[0])
    else
      var r := OptionOr(opts, names[1..], fallback);
      assert forall j :: 0 < j < |names| ==> names[j] == names[1..][j - 1];
      r
  }

  /** The option under the first name wins whenever it is truthy. */
  lemma OptionOrFirstWins(opts: JsVal, names: seq<string>, fallback: JsVal)
    requires !opts.IsNullish() && |names| > 0 && Truthy(opts.Get(names[0]))
    ensures OptionOr(opts, names, fallback) == opts.Get(names[0])
  {
  }

  /** A falsy option (0, '', false, null, or a missing key) falls through to
      the next name: an explicit 0 cannot be given this way. */
  lemma OptionOrSkipsFalsy(opts: JsVal, names: seq<string>, fallback: JsVal)
    requires !opts.IsNullish() && |names| > 0 && !Truthy(opts.Get(names[0]))
    ensures OptionOr(opts, names, fallback) == OptionOr(opts, names[1..], fallback)
  {
  }

  /** A two-name chain: the first name if truthy, else the second if truthy,
      else the fallback. */
  lemma OptionOrTwo(opts: JsVal, a: string, b: string, fallback: JsVal)
    requires !opts.IsNullish()
    ensures Truthy(opts.Get(a)) ==> OptionOr(opts, [a, b], fallback) == opts.Get(a)
    ensures !Truthy(opts.Get(a)) && Truthy(opts.Get(b)) ==> OptionOr(opts, [a, b], fallback) == opts.Get(b)
    ensures !Truthy(opts.Get(a)) && !Truthy(opts.Get(b)) ==> OptionOr(opts, [a, b], fallback) == fallback
  {
  }

  /** A three-name chain: the first truthy of the three names, else the fallback. */
  lemma OptionOrThree(opts: JsVal, a: string, b: string, c: string, fallback: JsVal)
    requires !opts.IsNullish()
    ensures Truthy(opts.Get(a)) ==> OptionOr(opts, [a, b, c], fallback) == opts.Get(a)
    ensures !Truthy(opts.Get(a)) && Truthy(opts.Get(b)) ==> OptionOr(opts, [a, b, c], fallback) == opts.Get(b)
    ensures !Truthy(opts.Get(a)) && !Truthy(opts.Get(b)) && Truthy(opts.Get(c)) ==>
              OptionOr(opts, [a, b, c], fallback) == opts.Get(c)
    ensures !Truthy(opts.Get(a)) && !Truthy(opts.Get(b)) && !Truthy(opts.Get(c)) ==>
              OptionOr(opts, [a, b, c], fallback) == fallback
  {
    if !Truthy(opts.Get(a)) {
      assert [a, b, c][1..] == [b, c];
      OptionOrTwo(opts, b, c, fallback);
    }
  }

  /** The arguments of the plane geometry constructor, and whether its buffered
      variant is used. */
  datatype PlaneArgs = PlaneArgs(width: JsVal, height: JsVal, widthSegments: JsVal,
                                 heightSegments: JsVal, buffered: bool)

  /** TJS板作成 with the width segments read from `widthSegments`. Reading any
      option of a nullish `opts` throws. `bufferClass` says whether the loaded
      library still has the buffered plane class. */
  function PlaneOptions(opts: JsVal, bufferClass: bool): (r: Result<PlaneArgs>)
    ensures r.Err? <==> opts.IsNullish()
    ensures r.Err? ==> r.error == TypeError
  {
    if opts.IsNullish() then Err(TypeError)
    else
      Ok(PlaneArgs(OptionOr(opts, ["幅", "W", "width"], Num(1.0)),
                   OptionOr(opts, ["高さ", "H"], Num(1.0)),
                   OptionOr(opts, ["横分割数", "widthSegments"], Num(1.0)),
                   OptionOr(opts, ["縦分割数", "heightSegments"], Num(1.0)),
                   Truthy(OptionOr(opts, ["バッファ", "buffer"], Bool(false))) && bufferClass))
  }

  /** The width segments of TJS板作成 as written: the second name read is
      `heightSegments`. */
  function PlaneWidthSegmentsAsWritten(opts: JsVal): (r: JsVal)
    requires !opts.IsNullish()
    ensures Truthy(opts.Get("横分割数")) ==> r == opts.Get("横分割数")
    ensures !Truthy(opts.Get("横分割数")) ==>
              r == (if Truthy(opts.Get("heightSegments")) then opts.Get("heightSegments") else Num(1.0))
  {
    OptionOrTwo(opts, "横分割数", "heightSegments", Num(1.0));
    OptionOr(opts, ["横分割数", "heightSegments"], Num(1.0))
  }

  /** An empty option object gives a 1 by 1 plane in one segment each way, unbuffered. */
  lemma PlaneDefaults(bufferClass: bool)
    ensures PlaneOptions(Obj(map[]), bufferClass) == Ok(PlaneArgs(Num(1.0), Num(1.0), Num(1.0), Num(1.0), false))
  {
  }

  /** Each dimension is the first truthy of its Japanese name and its library
      names, else 1: the width reads `幅`, `W`, `width`, the height `高さ`, `H`.
      The buffered variant needs both a truthy option and the class. */
  lemma PlaneOptionsMeaning(opts: JsVal, bufferClass: bool)
    requires !opts.IsNullish()
    ensures var a := PlaneOptions(opts, bufferClass).value;
            && (Truthy(opts.Get("幅")) ==> a.width == opts.Get("幅"))
            && (!Truthy(opts.Get("幅")) && Truthy(opts.Get("W")) ==> a.width == opts.Get("W"))
            && (!Truthy(opts.Get("幅")) && !Truthy(opts.Get("W")) && Truthy(opts.Get("width")) ==> a.width == opts.Get("width"))
            && (!Truthy(opts.Get("幅")) && !Truthy(opts.Get("W")) && !Truthy(opts.Get("width")) ==> a.width == Num(1.0))
            && (Truthy(opts.Get("高さ")) ==> a.height == opts.Get("高さ"))
            && (!Truthy(opts.Get("高さ")) && Truthy(opts.Get("H")) ==> a.height == opts.Get("H"))
            && (!Truthy(opts.Get("高さ")) && !Truthy(opts.Get("H")) ==> a.height == Num(1.0))
            && (Truthy(opts.Get("横分割数")) ==> a.widthSegments == opts.Get("横分割数"))
            && (!Truthy(opts.Get("横分割数")) && Truthy(opts.Get("widthSegments")) ==> a.widthSegments == opts.Get("widthSegments"))
            && (!Truthy(opts.Get("横分割数")) && !Truthy(opts.Get("widthSegments")) ==> a.widthSegments == Num(1.0))
            && (Truthy(opts.Get("縦分割数")) ==> a.heightSegments == opts.Get("縦分割数"))
            && (!Truthy(opts.Get("縦分割数")) && Truthy(opts.Get("heightSegments")) ==> a.heightSegments == opts.Get("heightSegments"))
            && (!Truthy(opts.Get("縦分割数")) && !Truthy(opts.Get("heightSegments")) ==> a.heightSegments == Num(1.0))
            && (a.buffered <==> bufferClass && (Truthy(opts.Get("バッファ")) || Truthy(opts.Get("buffer"))))
  {
    OptionOrThree(opts, "幅", "W", "width", Num(1.0));
    OptionOrTwo(opts, "高さ", "H", Num(1.0));
    OptionOrTwo(opts, "横分割数", "widthSegments", Num(1.0));
    OptionOrTwo(opts, "縦分割数", "heightSegments", Num(1.0));
    OptionOrTwo(opts, "バッファ", "buffer", Bool(false));
  }

  /** The corrected width segments never depend on the `heightSegments` option. */
  lemma WidthSegmentsIgnoreHeightSegments(opts: JsVal, v: JsVal, bufferClass: bool)
    requires opts.Obj?
    ensures PlaneOptions(Obj(opts.props["heightSegments" := v]), bufferClass).value.widthSegments
         == PlaneOptions(opts, bufferClass).value.widthSegments
  {
    var opts' := Obj(opts.props["heightSegments" := v]);
    assert opts'.Get("横分割数") == opts.Get("横分割数");
    assert opts'.Get("widthSegments") == opts.Get("widthSegments");
    OptionOrTwo(opts, "横分割数", "widthSegments", Num(1.0));
    OptionOrTwo(opts', "横分割数", "widthSegments", Num(1.0));
  }

  /** As written, a plane given only `widthSegments: 4` is built with one width
      segment; the corrected decoding gives four. */
  lemma WidthSegmentsOptionIgnored()
    ensures PlaneWidthSegmentsAsWritten(Obj(map["widthSegments" := Num(4.0)])) == Num(1.0)
    ensures PlaneOptions(Obj(map["widthSegments" := Num(4.0)]), false).value.widthSegments == Num(4.0)
  {
  }
}
