/** WeykThreeSystem (src/plugin_weykthree.ts): the plugin's manager object.
    It normalises vector and quaternion arguments, resolves property paths
    through a synonym table, promotes the library handle lazily, and keeps the
    list of scenes it created so that they can all be torn down. */
module WeykThree {
  import opened JsValues
  import opened ThreeUtil

  /** A handle on the loaded 3D library module. */
  datatype Library = Library(handle: nat)

  /** The record parsePos builds. */
  datatype XYZ = XYZ(x: JsVal, y: JsVal, z: JsVal)

  /** The record parseQuat builds. */
  datatype XYZW = XYZW(x: JsVal, y: JsVal, z: JsVal, w: JsVal)

  /** propMap: Japanese property names and the library's names for them. */
  const PropSynonyms: map<string, string> :=
    map["シャドー" := "shadow", "シャドーマップ" := "shadowMap", "カメラ" := "camera"]

  // ---------------------------------------------------------------------------
  // Argument shapes

  /** What parsePos accepts: a 3-element array, or an object with x, y and z. */
  predicate PosShaped(xyz: JsVal) {
    (xyz.Arr? && |xyz.items| == 3) || (xyz.IsObject() && {"x", "y", "z"} <= xyz.Keys())
  }

  /** What parseQuat accepts: a 4-element array, or an object with x, y, z and w. */
  predicate QuatShaped(xyzw: JsVal) {
    (xyzw.Arr? && |xyzw.items| == 4) || (xyzw.IsObject() && {"x", "y", "z", "w"} <= xyzw.Keys())
  }

  /** A component passed to the library's Vector3 constructor, whose parameters
      default to 0: an undefined component becomes 0, any other is kept. */
  function VectorComponent(v: JsVal): (c: JsVal)
    ensures c != Undefined
    ensures !v.Undefined? ==> c == v
  {
    if v.Undefined? then Num(0.0) else v
  }

  // ---------------------------------------------------------------------------
  // Property paths

  /** A key after the synonym table: `propMap[key]` when it exists, else the key. */
  function Rename(key: string): (r: string)
    ensures key in PropSynonyms ==> r == PropSynonyms[key]
    ensures key !in PropSynonyms ==> r == key
    ensures r !in PropSynonyms
  {
    if key in PropSynonyms then PropSynonyms[key] else key
  }

  /** One turn of resolveProp: a nullish object stays as it is, a null key is
      skipped, any other key is renamed and looked up. */
  function Step(obj: JsVal, key: Option<string>): JsVal {
    if obj.IsNullish() || key.None? then obj else obj.Get(Rename(key.value))
  }

  /** resolveProp's result: the keys applied in list order. */
  function Walk(obj: JsVal, keys: seq<Option<string>>): JsVal
    decreases |keys|
  {
    if keys == [] then obj else Walk(Step(obj, keys[0]), keys[1..])
  }

  /** Each key replaced by its library name. */
  function Canonical(keys: seq<Option<string>>): (r: seq<Option<string>>)
    ensures |r| == |keys|
    ensures forall i :: 0 <= i < |keys| ==> r[i] == (if keys[i].Some? then Some(Rename(keys[i].value)) else None)
  {
    seq(|keys|, i requires 0 <= i < |keys| => if keys[i].Some? then Some(Rename(keys[i].value)) else None)
  }

  /** Walking a concatenated key list is walking one list, then the other. */
  lemma {:induction false} WalkAppend(obj: JsVal, a: seq<Option<string>>, b: seq<Option<string>>)
    ensures Walk(obj, a + b) == Walk(Walk(obj, a), b)
    decreases |a|
  {
    if a != [] {
      assert (a + b)[0] == a[0] && (a + b)[1..] == a[1..] + b;
      assert Walk(obj, a + b) == Walk(Step(obj, a[0]), a[1..] + b);
      WalkAppend(Step(obj, a[0]), a[1..], b);
    } else {
      assert a + b == b;
    }
  }

  /** Once the current object is null or undefined, every later key leaves it as it is. */
  lemma {:induction false} WalkStopsAtNullish(obj: JsVal, keys: seq<Option<string>>)
    requires obj.IsNullish()
    ensures Walk(obj, keys) == obj
    decreases |keys|
  {
    if keys != [] {
      WalkStopsAtNullish(Step(obj, keys[0]), keys[1..]);
    }
  }

  /** A prefix of the path that reaches null or undefined decides the result. */
  lemma NullishPrefixDecides(obj: JsVal, a: seq<Option<string>>, b: seq<Option<string>>)
    requires Walk(obj, a).IsNullish()
    ensures Walk(obj, a + b) == Walk(obj, a)
  {
    WalkAppend(obj, a, b);
    WalkStopsAtNullish(Walk(obj, a), b);
  }

  /** A synonym and the library name it stands for resolve to the same value. */
  lemma {:induction false} SynonymsAreAliases(obj: JsVal, keys: seq<Option<string>>)
    ensures Walk(obj, keys) == Walk(obj, Canonical(keys))
    decreases |keys|
  {
    if keys != [] {
      var c := Canonical(keys);
      assert Step(obj, keys[0]) == Step(obj, c[0]);
      assert Canonical(keys[1..]) == c[1..];
      SynonymsAreAliases(Step(obj, keys[0]), keys[1..]);
    }
  }

  // ---------------------------------------------------------------------------
  // Library handle

  /** The outcome of getThree: its result and the new values of the field and
      of the host's system variable THREE. */
  datatype Promotion = Promotion(result: Result<Library>, field: Option<Library>, sysVar: Option<Library>)

  /** getThree: keep the field when set, else adopt the system variable, else
      the global; fail when none is there; back-fill an empty system variable. */
  function Promote(field: Option<Library>, sysVar: Option<Library>, global: Option<Library>): (p: Promotion)
    ensures p.result.Err? <==> field.None? && sysVar.None? && global.None?
    ensures p.result.Err? ==> p == Promotion(Err(LibraryNotLoaded), field, sysVar)
    ensures field.Some? ==> p.result == Ok(field.value)
    ensures field.None? && sysVar.Some? ==> p.result == Ok(sysVar.value)
    ensures field.None? && sysVar.None? && global.Some? ==> p.result == Ok(global.value)
    ensures p.result.Ok? ==> p.field == Some(p.result.value)
    ensures p.result.Ok? ==> p.sysVar == (if sysVar.Some? then sysVar else p.field)
  {
    var adopted := if field.Some? then field else if sysVar.Some? then sysVar else global;
    if adopted.None? then Promotion(Err(LibraryNotLoaded), field, sysVar)
    else Promotion(Ok(adopted.value), adopted, if sysVar.None? then adopted else sysVar)
  }

  /** Once getThree has succeeded, calling it again returns the same library and
      changes nothing, whatever the global holds by then. */
  lemma PromoteIdempotent(field: Option<Library>, sysVar: Option<Library>, global: Option<Library>, later: Option<Library>)
    requires Promote(field, sysVar, global).result.Ok?
    ensures var p := Promote(field, sysVar, global);
            Promote(p.field, p.sysVar, later) == p
  {
  }

  /** The loaders fetch the library exactly when getThree would fail. */
  predicate NeedsLibraryFetch(field: Option<Library>, sysVar: Option<Library>, global: Option<Library>)
    ensures NeedsLibraryFetch(field, sysVar, global) <==> Promote(field, sysVar, global).result.Err?
  {
    field.None? && global.None? && sysVar.None?
  }

  // ---------------------------------------------------------------------------
  // The host and the manager

  /** The host scripting runtime, as far as the plugin uses it: its system variable THREE. */
  class HostSystem {
    var threeVar: Option<Library>

    constructor (threeVar: Option<Library>)
      ensures this.threeVar == threeVar
    {
      this.threeVar := threeVar;
    }
  }

  class WeykThreeSystem {
    var instanceCount: nat
    var three: Option<Library>
    const sys: HostSystem
    var scene: Object3D?
    var camera: Option<nat>
    var sceneList: seq<Object3D>
    const propMap: map<string, string> := PropSynonyms
    ghost var sceneModels: seq<Tree>
    ghost var ScenesRepr: set<object>

    /** The registered scenes are valid, disjoint trees, and the current scene
        is one of them. */
    ghost predicate Valid()
      reads this, ScenesRepr
    {
      && this !in ScenesRepr && sys !in ScenesRepr
      && |sceneModels| == |sceneList|
      && (forall i :: 0 <= i < |sceneList| ==>
            && sceneList[i] in ScenesRepr && sceneList[i].Repr <= ScenesRepr
            && sceneList[i].Valid() && sceneList[i].model == sceneModels[i])
      && (forall i, j :: 0 <= i < j < |sceneList| ==> sceneList[i].Repr !! sceneList[j].Repr)
      && (scene != null ==> scene in sceneList)
    }

    constructor (sys: HostSystem)
      ensures Valid() && ScenesRepr == {}
      ensures this.sys == sys && instanceCount == 0 && three.None?
      ensures scene == null && camera.None? && sceneList == []
    {
      instanceCount := 0;
      this.sys := sys;
      three := None;
      scene := null;
      camera := None;
      sceneList := [];
      sceneModels := [];
      ScenesRepr := {};
    }

    /** checkThree */
    predicate CheckThree()
      reads this
      ensures CheckThree() <==>
                three.Some? && forall sysVar, global :: Promote(three, sysVar, global).result == Ok(three.value)
    {
      three.Some?
    }

    /** getThree, given what the global `window.THREE` holds. */
    method GetThree(global: Option<Library>) returns (r: Result<Library>)
      modifies this`three, sys`threeVar
      ensures Promotion(r, three, sys.threeVar) == Promote(old(three), old(sys.threeVar), global)
      ensures r.Ok? ==> CheckThree()
      ensures old(Valid()) ==> Valid()
    {
      if three.None? {
        if sys.threeVar.Some? {
          three := sys.threeVar;
        } else if global.Some? {
          three := global;
        }
      }
      if three.None? {
        return Err(LibraryNotLoaded);
      }
      if sys.threeVar.None? {
        sys.threeVar := three;
      }
      r := Ok(three.value);
    }

    /** setThree: adopt `lib`, then getThree. */
    method SetThree(lib: Library, global: Option<Library>) returns (r: Result<Library>)
      modifies this`three, sys`threeVar
      ensures r == Ok(lib) && three == Some(lib)
      ensures sys.threeVar == if old(sys.threeVar).Some? then old(sys.threeVar) else Some(lib)
      ensures old(Valid()) ==> Valid()
    {
      three := Some(lib);
      r := GetThree(global);
    }

    /** isLazyXYZ: not nullish and has x, y and z; `in` throws on a primitive. */
    function IsLazyXYZ(xyz: JsVal): (r: Result<bool>)
      ensures r.Err? <==> xyz.IsPrimitive()
      ensures r == Ok(true) <==> xyz.IsObject() && {"x", "y", "z"} <= xyz.Keys()
    {
      if xyz.IsNullish() then Ok(false)
      else
        match HasProp(xyz, "x")
        case Err(e) => Err(e)
        case Ok(hasX) => Ok(hasX && HasProp(xyz, "y").value && HasProp(xyz, "z").value)
    }

    /** isLazyXYZW: as isLazyXYZ, with w as well. */
    function IsLazyXYZW(xyzw: JsVal): (r: Result<bool>)
      ensures r.Err? <==> xyzw.IsPrimitive()
      ensures r == Ok(true) <==> xyzw.IsObject() && {"x", "y", "z", "w"} <= xyzw.Keys()
    {
      if xyzw.IsNullish() then Ok(false)
      else
        match HasProp(xyzw, "x")
        case Err(e) => Err(e)
        case Ok(hasX) =>
          Ok(hasX && HasProp(xyzw, "y").value && HasProp(xyzw, "z").value && HasProp(xyzw, "w").value)
    }

    /** parsePos: a position from a 3-element array or from an object whose
        fields are values or thunks; null (`Ok(None)`) for anything else. */
    method ParsePos(xyz: JsVal) returns (r: Result<Option<XYZ>>)
      ensures r.Err? <==> xyz.IsPrimitive()
      ensures r.Err? ==> r.error == TypeError
      ensures r.Ok? && r.value.Some? <==> PosShaped(xyz)
      ensures xyz.Arr? && |xyz.items| == 3 ==>
                r == Ok(Some(XYZ(xyz.items[0], xyz.items[1], xyz.items[2])))
      ensures !xyz.Arr? && PosShaped(xyz) ==>
                r == Ok(Some(XYZ(Force(xyz.Get("x")), Force(xyz.Get("y")), Force(xyz.Get("z")))))
    {
      var pos := XYZ(Num(0.0), Num(0.0), Num(0.0));
      if xyz.Arr? && |xyz.items| == 3 {
        pos := pos.(x := xyz.items[0]);
        pos := pos.(y := xyz.items[1]);
        pos := pos.(z := xyz.items[2]);
        return Ok(Some(pos));
      }
      var lazy := IsLazyXYZ(xyz);
      if lazy.Err? {
        return Err(lazy.error);
      }
      if lazy.value {
        pos := pos.(x := Force(xyz.Get("x")));
        pos := pos.(y := Force(xyz.Get("y")));
        pos := pos.(z := Force(xyz.Get("z")));
        r := Ok(Some(pos));
      } else {
        r := Ok(None);
      }
    }

    /** parseQuat: as parsePos, with 4-element arrays and x/y/z/w objects. */
    method ParseQuat(xyzw: JsVal) returns (r: Result<Option<XYZW>>)
      ensures r.Err? <==> xyzw.IsPrimitive()
      ensures r.Err? ==> r.error == TypeError
      ensures r.Ok? && r.value.Some? <==> QuatShaped(xyzw)
      ensures xyzw.Arr? && |xyzw.items| == 4 ==>
                r == Ok(Some(XYZW(xyzw.items[0], xyzw.items[1], xyzw.items[2], xyzw.items[3])))
      ensures !xyzw.Arr? && QuatShaped(xyzw) ==>
                r == Ok(Some(XYZW(Force(xyzw.Get("x")), Force(xyzw.Get("y")),
                                  Force(xyzw.Get("z")), Force(xyzw.Get("w")))))
    {
      var quat := XYZW(Num(0.0), Num(0.0), Num(0.0), Num(0.0));
      if xyzw.Arr? && |xyzw.items| == 4 {
        quat := quat.(x := xyzw.items[0]);
        quat := quat.(y := xyzw.items[1]);
        quat := quat.(z := xyzw.items[2]);
        quat := quat.(w := xyzw.items[3]);
        return Ok(Some(quat));
      }
      var lazy := IsLazyXYZW(xyzw);
      if lazy.Err? {
        return Err(lazy.error);
      }
      if lazy.value {
        quat := quat.(x := Force(xyzw.Get("x")));
        quat := quat.(y := Force(xyzw.Get("y")));
        quat := quat.(z := Force(xyzw.Get("z")));
        quat := quat.(w := Force(xyzw.Get("w")));
        r := Ok(Some(quat));
      } else {
        r := Ok(None);
      }
    }

    /** parseVec3: getThree first; an existing vector passes through, null or
        undefined gives the zero vector, anything else goes through parsePos. */
    method ParseVec3(xyz: JsVal, global: Option<Library>) returns (r: Result<Option<JsVal>>)
      modifies this`three, sys`threeVar
      ensures Promotion(Promote(old(three), old(sys.threeVar), global).result, three, sys.threeVar)
           == Promote(old(three), old(sys.threeVar), global)
      ensures Promote(old(three), old(sys.threeVar), global).result.Err? ==> r == Err(LibraryNotLoaded)
      ensures Promote(old(three), old(sys.threeVar), global).result.Ok? ==>
                && (xyz.Vector3? ==> r == Ok(Some(xyz)))
                && (xyz.IsNullish() ==> r == Ok(Some(Vector3(Num(0.0), Num(0.0), Num(0.0)))))
                && (xyz.IsPrimitive() ==> r == Err(TypeError))
                && (!xyz.Vector3? && xyz.IsObject() ==> (r.Ok? && (r.value.Some? <==> PosShaped(xyz))))
                && (xyz.Arr? && |xyz.items| == 3 ==>
                      r == Ok(Some(Vector3(VectorComponent(xyz.items[0]), VectorComponent(xyz.items[1]),
                                           VectorComponent(xyz.items[2])))))
                && (!xyz.Vector3? && !xyz.Arr? && PosShaped(xyz) ==>
                      r == Ok(Some(Vector3(VectorComponent(Force(xyz.Get("x"))), VectorComponent(Force(xyz.Get("y"))),
                                           VectorComponent(Force(xyz.Get("z")))))))
      ensures old(Valid()) ==> Valid()
    {
      var lib := GetThree(global);
      if lib.Err? {
        return Err(lib.error);
      }
      if xyz.Vector3? {
        return Ok(Some(xyz));
      }
      if xyz.IsNullish() {
        return Ok(Some(Vector3(Num(0.0), Num(0.0), Num(0.0))));
      }
      var pos := ParsePos(xyz);
      if pos.Err? {
        return Err(pos.error);
      }
      if pos.value.None? {
        return Ok(None);
      }
      var p := pos.value.value;
      r := Ok(Some(Vector3(VectorComponent(p.x), VectorComponent(p.y), VectorComponent(p.z))));
    }

    /** resolveProp: follow `keylist` from `obj`, renaming synonyms, until
        the current object is null or undefined. */
    method ResolveProp(obj: JsVal, keylist: seq<Option<string>>) returns (r: JsVal)
      ensures r == Walk(obj, keylist)
    {
      r := obj;
      var i := 0;
      while i < |keylist|
        invariant 0 <= i <= |keylist|
        invariant Walk(obj, keylist) == Walk(r, keylist[i..])
      {
        var key := keylist[i];
        if !r.IsNullish() {
          if key.Some? && key.value in propMap {
            key := Some(propMap[key.value]);
          }
          if key.Some? {
            r := r.Get(key.value);
          }
        }
        i := i + 1;
      }
    }

    /** clearAll: tear down every registered scene, then forget the current
        scene, the camera and the list. */
    method ClearAll() returns (log: seq<Event>)
      requires Valid()
      modifies this, ScenesRepr
      ensures Valid() && ScenesRepr == old(ScenesRepr)
      ensures scene == null && camera.None? && sceneList == []
      ensures three == old(three) && instanceCount == old(instanceCount)
      ensures forall i, o: Object3D :: 0 <= i < |old(sceneList)| && o in old(sceneList[i].Repr) ==> o.children == []
      ensures log == ScenesLog(old(sceneModels))
    {
      log := DisposeScenes();
      scene := null;
      camera := None;
      sceneList := [];
      sceneModels := [];
    }

    /** The loop of clearAll: tear down the scenes in list order. */
    method DisposeScenes() returns (log: seq<Event>)
      requires Valid()
      modifies ScenesRepr
      ensures ScenesInPlace()
      ensures forall i, o: Object3D :: 0 <= i < |sceneList| && o in old(sceneList[i].Repr) ==> o.children == []
      ensures log == ScenesLog(sceneModels)
    {
      log := [];
      var i := 0;
      while i < |sceneList|
        invariant 0 <= i <= |sceneList|
        invariant ScenesInPlace()
        invariant forall j :: i <= j < |sceneList| ==> sceneList[j].model == sceneModels[j]
        invariant forall j :: i <= j < |sceneList| ==> sceneList[j].Repr == old(sceneList[j].Repr)
        invariant forall j, o: Object3D :: 0 <= j < i && o in old(sceneList[j].Repr) ==> o.children == []
        invariant log == ScenesLog(sceneModels[..i])
      {
        var sub := DisposeScene(i);
        ScenesLogStep(sceneModels, i);
        log := log + sub;
        i := i + 1;
      }
      assert sceneModels[..i] == sceneModels;
    }

    /** The part of Valid() that holds while clearAll empties the scenes one by one. */
    ghost predicate ScenesInPlace()
      reads this, ScenesRepr
    {
      && this !in ScenesRepr && sys !in ScenesRepr
      && |sceneModels| == |sceneList|
      && (forall i :: 0 <= i < |sceneList| ==>
            sceneList[i] in ScenesRepr && sceneList[i].Repr <= ScenesRepr && sceneList[i].Valid())
      && (forall i, j :: 0 <= i < j < |sceneList| ==> sceneList[i].Repr !! sceneList[j].Repr)
    }

    /** One turn of clearAll's loop: tear down the scene at index `k`; the other
        scenes, whose trees are disjoint from it, are untouched. */
    method DisposeScene(k: nat) returns (log: seq<Event>)
      requires k < |sceneList| && ScenesInPlace()
      modifies sceneList[k].Repr
      ensures ScenesInPlace()
      ensures sceneList[k].children == [] && log == TeardownLog(old(sceneList[k].model))
      ensures sceneList[k].Repr == {sceneList[k]}
      ensures forall o: Object3D :: o in old(sceneList[k].Repr) ==> o.children == []
      ensures forall j :: 0 <= j < |sceneList| && j != k ==> sceneList[j].Repr == old(sceneList[j].Repr)
      ensures forall j :: 0 <= j < |sceneList| && j != k ==>
                sceneList[j].children == old(sceneList[j].children) && sceneList[j].model == old(sceneList[j].model)
    {
      log := DisposeChildObject(sceneList[k]);
    }

    /** Scene creation: getThree, then a new empty scene becomes the current
        scene and is appended to the list. */
    method CreateScene(id: nat, global: Option<Library>) returns (r: Result<Object3D>)
      requires Valid()
      modifies this, sys`threeVar
      ensures Valid()
      ensures Promotion(Promote(old(three), old(sys.threeVar), global).result, three, sys.threeVar)
           == Promote(old(three), old(sys.threeVar), global)
      ensures r.Err? <==> Promote(old(three), old(sys.threeVar), global).result.Err?
      ensures r.Err? ==> r.error == LibraryNotLoaded && sceneList == old(sceneList) && scene == old(scene)
      ensures r.Ok? ==> && fresh(r.value) && r.value.id == id && r.value.children == []
                        && r.value.model == Tree(id, None, None, NoMaterial, []) && r.value.Repr == {r.value}
                        && scene == r.value && sceneList == old(sceneList) + [r.value]
                        && sceneModels == old(sceneModels) + [r.value.model]
      ensures camera == old(camera) && instanceCount == old(instanceCount)
    {
      var lib := GetThree(global);
      if lib.Err? {
        return Err(lib.error);
      }
      var s := new Object3D(id, None, None, NoMaterial);
      AddScene(s);
      r := Ok(s);
    }

    /** The bookkeeping half of scene creation: a new scene, outside every
        registered tree, becomes the current scene and the last in the list. */
    method AddScene(s: Object3D)
      requires Valid() && s.Valid() && s.Repr == {s} && s !in ScenesRepr
      modifies this
      ensures Valid() && ScenesRepr == old(ScenesRepr) + {s}
      ensures scene == s && sceneList == old(sceneList) + [s] && sceneModels == old(sceneModels) + [s.model]
      ensures three == old(three) && camera == old(camera) && instanceCount == old(instanceCount)
    {
      scene := s;
      sceneList := sceneList + [s];
      sceneModels := sceneModels + [s.model];
      ScenesRepr := ScenesRepr + s.Repr;
    }
  }

  /** The teardown logs of the scenes, in list order. */
  function ScenesLog(scenes: seq<Tree>): seq<Event> {
    if scenes == [] then [] else ScenesLog(scenes[..|scenes| - 1]) + TeardownLog(scenes[|scenes| - 1])
  }

  /** One more scene torn down extends the log by its teardown. */
  lemma ScenesLogStep(scenes: seq<Tree>, k: nat)
    requires k < |scenes|
    ensures ScenesLog(scenes[..k + 1]) == ScenesLog(scenes[..k]) + TeardownLog(scenes[k])
  {
    assert scenes[..k + 1][..k] == scenes[..k];
  }

  /** clearAll detaches exactly the parent-child links of the registered scenes. */
  lemma {:induction false} ScenesLogDetachesEdges(scenes: seq<Tree>, p: nat, c: nat)
    ensures Detached(p, c) in ScenesLog(scenes)
        <==> exists k :: 0 <= k < |scenes| && (p, c) in Edges(scenes[k])
  {
    if scenes != [] {
      var init, last := scenes[..|scenes| - 1], scenes[|scenes| - 1];
      var e := Detached(p, c);
      assert ScenesLog(scenes) == ScenesLog(init) + TeardownLog(last);
      assert e in ScenesLog(scenes) <==> e in ScenesLog(init) || e in TeardownLog(last);
      ScenesLogDetachesEdges(init, p, c);
      DetachedIffEdge(last, p, c);
      assert forall k :: 0 <= k < |init| ==> scenes[k] == init[k];
      if e in ScenesLog(init) {
        var k :| 0 <= k < |init| && (p, c) in Edges(init[k]);
        assert (p, c) in Edges(scenes[k]);
      } else if e in TeardownLog(last) {
        assert (p, c) in Edges(scenes[|scenes| - 1]);
      }
    }
  }

  /** The class-level `instance` slot of WeykThreeSystem. */
  class PluginRegistry {
    var instance: WeykThreeSystem?

    constructor ()
      ensures instance == null
    {
      instance := null;
    }

    /** getInstance: create the single instance on first use; every call
        counts one more use. */
    method GetInstance(sys: HostSystem) returns (i: WeykThreeSystem)
      modifies this, instance
      ensures instance == i
      ensures old(instance) != null ==> i == old(instance)
      ensures old(instance) != null ==> i.instanceCount == old(instance.instanceCount) + 1
      ensures old(instance) != null ==>
                && i.three == old(instance.three) && i.scene == old(instance.scene)
                && i.camera == old(instance.camera) && i.sceneList == old(instance.sceneList)
                && i.sceneModels == old(instance.sceneModels) && i.ScenesRepr == old(instance.ScenesRepr)
      ensures old(instance) != null && old(instance.Valid()) ==> i.Valid()
      ensures old(instance) == null ==>
                && fresh(i) && i.sys == sys && i.instanceCount == 1 && i.Valid()
                && i.three.None? && i.scene == null && i.camera.None? && i.sceneList == []
                && i.ScenesRepr == {}
    {
      if instance == null {
        instance := new WeykThreeSystem(sys);
      }
      i := instance;
      i.instanceCount := i.instanceCount + 1;
    }
  }
}
