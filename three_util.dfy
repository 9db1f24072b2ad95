/** Scene teardown (ThreeUtil in src/plugin_three.ts): detach every child of a
    node, tearing each child down first, and dispose the geometry and the
    materials of mesh nodes.

    Disposal is observed through an event log: each `dispose()` call and each
    `remove(child)` the source makes is one `Event`, in the order it happens. */
module ThreeUtil {
  import opened JsValues

  /** A material: its id and its own enumerable properties in `Object.keys` order. */
  datatype Material = Material(id: nat, props: seq<(string, JsVal)>)

  /** A node's `material` field: falsy, one material, or an array of materials. */
  datatype MaterialSlot = NoMaterial | Single(m: Material) | Several(ms: seq<Material>)

  /** The abstract value of a scene-graph node. `meshMark` is the `isMesh`
      property when present; `geometry` is the id of a truthy `geometry`. */
  datatype Tree = Tree(id: nat, meshMark: Option<JsVal>, geometry: Option<nat>,
                       material: MaterialSlot, children: seq<Tree>)

  datatype Event =
    | GeometryDisposed(geometry: nat)
    | PropertyDisposed(material: nat, key: string)
    | MaterialDisposed(material: nat)
    | Detached(parent: nat, child: nat)

  // ---------------------------------------------------------------------------
  // Predicates of the source

  /** isMesh: the node has an `isMesh` property whose value is exactly `true`. */
  predicate IsMesh(meshMark: Option<JsVal>)
    ensures IsMesh(meshMark) ==> meshMark.Some? && Truthy(meshMark.value)
    ensures meshMark.Some? && meshMark.value != Bool(true) ==> !IsMesh(meshMark)
  {
    meshMark == Some(Bool(true))
  }

  /** isDisporsal, as the source intends it: an object with a function-valued
      `dispose`. Primitive, null and undefined property values are not disposable. */
  predicate IsDisposable(v: JsVal)
    ensures IsDisposable(v) ==> v.IsObject() && v.Get("dispose").Fn?
    ensures !v.IsObject() ==> !IsDisposable(v)
  {
    v.IsObject() && "dispose" in v.Keys() && v.Get("dispose").Fn?
  }

  /** isDisporsal as written: `'dispose' in obj` throws a TypeError when the
      property value is not an object. */
  function IsDisposableAsWritten(v: JsVal): (r: Result<bool>)
    ensures r.Err? <==> !v.IsObject()
    ensures r.Ok? ==> (r.value <==> IsDisposable(v))
  {
    var has :- HasProp(v, "dispose");
    Ok(has && v.Get("dispose").Fn?)
  }

  // ---------------------------------------------------------------------------
  // Specification of the disposal order

  /** The disposals of a material's properties, in key order. */
  function PropLog(mid: nat, props: seq<(string, JsVal)>): seq<Event>
  {
    if props == [] then []
    else
      var last := props[|props| - 1];
      PropLog(mid, props[..|props| - 1])
        + (if IsDisposable(last.1) then [PropertyDisposed(mid, last.0)] else [])
  }

  /** disposeOneMaterial: every disposable property, then the material itself. */
  function MaterialLog(m: Material): seq<Event> {
    PropLog(m.id, m.props) + [MaterialDisposed(m.id)]
  }

  /** An array of materials, each disposed in array order. */
  function MaterialsLog(ms: seq<Material>): seq<Event> {
    if ms == [] then [] else MaterialsLog(ms[..|ms| - 1]) + MaterialLog(ms[|ms| - 1])
  }

  /** What a node disposes of its own after its children are gone: for a mesh,
      its geometry, then its material or each material of its array. */
  function MeshLog(meshMark: Option<JsVal>, geometry: Option<nat>, material: MaterialSlot): seq<Event> {
    if !IsMesh(meshMark) then []
    else
      (if geometry.Some? then [GeometryDisposed(geometry.value)] else [])
      + match material
        case NoMaterial => []
        case Single(m) => MaterialLog(m)
        case Several(ms) => MaterialsLog(ms)
  }

  function OwnLog(t: Tree): seq<Event> {
    MeshLog(t.meshMark, t.geometry, t.material)
  }

  /** disposeChildObject(t): the children's teardowns, then the node's own disposals. */
  function TeardownLog(t: Tree): seq<Event>
    decreases t, 1
  {
    ChildrenLog(t.id, t.children) + OwnLog(t)
  }

  /** Children removed from the front: each is torn down, then detached from `parent`. */
  function ChildrenLog(parent: nat, cs: seq<Tree>): seq<Event>
    decreases cs, 0
  {
    if cs == [] then []
    else
      var last := cs[|cs| - 1];
      ChildrenLog(parent, cs[..|cs| - 1]) + TeardownLog(last) + [Detached(parent, last.id)]
  }

  /** The parent-child edges of a tree. */
  function Edges(t: Tree): set<(nat, nat)>
    decreases t, 1
  {
    ChildEdges(t.id, t.children)
  }

  function ChildEdges(parent: nat, cs: seq<Tree>): set<(nat, nat)>
    decreases cs, 0
  {
    if cs == [] then {}
    else
      var last := cs[|cs| - 1];
      ChildEdges(parent, cs[..|cs| - 1]) + Edges(last) + {(parent, last.id)}
  }

  /** The geometries held by mesh nodes of a tree. */
  function MeshGeometries(t: Tree): set<nat>
    decreases t, 1
  {
    ChildGeometries(t.children)
      + (if IsMesh(t.meshMark) && t.geometry.Some? then {t.geometry.value} else {})
  }

  function ChildGeometries(cs: seq<Tree>): set<nat>
    decreases cs, 0
  {
    if cs == [] then {} else ChildGeometries(cs[..|cs| - 1]) + MeshGeometries(cs[|cs| - 1])
  }

  /** The ids of the materials in a material slot. */
  function SlotMaterials(slot: MaterialSlot): set<nat> {
    match slot
    case NoMaterial => {}
    case Single(m) => {m.id}
    case Several(ms) => set i | 0 <= i < |ms| :: ms[i].id
  }

  /** The materials held by mesh nodes of a tree. */
  function MeshMaterials(t: Tree): set<nat>
    decreases t, 1
  {
    ChildMaterials(t.children) + (if IsMesh(t.meshMark) then SlotMaterials(t.material) else {})
  }

  function ChildMaterials(cs: seq<Tree>): set<nat>
    decreases cs, 0
  {
    if cs == [] then {} else ChildMaterials(cs[..|cs| - 1]) + MeshMaterials(cs[|cs| - 1])
  }

  // ---------------------------------------------------------------------------
  // Properties of the disposal order

  /** Tearing down a concatenation of child lists is tearing down each in turn. */
  lemma {:induction false} ChildrenLogAppend(parent: nat, a: seq<Tree>, b: seq<Tree>)
    ensures ChildrenLog(parent, a + b) == ChildrenLog(parent, a) + ChildrenLog(parent, b)
    decreases |b|
  {
    if b == [] {
      assert a + b == a;
    } else {
      var b', last := b[..|b| - 1], b[|b| - 1];
      ChildrenLogAppend(parent, a, b');
      SplitLast(a, b);
      ChildrenLogSnoc(parent, a + b', last);
      ChildrenLogSnoc(parent, b', last);
      AppendAssoc(ChildrenLog(parent, a), ChildrenLog(parent, b'), TeardownLog(last) + [Detached(parent, last.id)]);
    }
  }

  /** A non-empty sequence is its front followed by its last element, also
      after a prefix. */
  lemma SplitLast<T>(a: seq<T>, b: seq<T>)
    requires b != []
    ensures b == b[..|b| - 1] + [b[|b| - 1]]
    ensures a + b == (a + b[..|b| - 1]) + [b[|b| - 1]]
  {
  }

  /** A sequence is its prefix up to and including `s[i]` followed by the
      rest, and that prefix is the one before `s[i]` followed by `s[i]`. */
  lemma TakeDropSnoc<T>(s: seq<T>, i: nat)
    requires i < |s|
    ensures s == s[..i + 1] + s[i + 1..]
    ensures s[..i + 1] == s[..i] + [s[i]]
  {
  }

  /** Sequence concatenation is associative. */
  lemma AppendAssoc<T>(x: seq<T>, y: seq<T>, z: seq<T>)
    ensures (x + y) + z == x + (y + z)
  {
  }

  /** A child appended at the end is torn down, then detached, after all the
      others. */
  lemma ChildrenLogSnoc(parent: nat, cs: seq<Tree>, t: Tree)
    ensures ChildrenLog(parent, cs + [t]) == ChildrenLog(parent, cs) + (TeardownLog(t) + [Detached(parent, t.id)])
  {
    assert (cs + [t])[..|cs|] == cs;
  }

  /** One more child removed from the front extends the log by its teardown
      and its detachment. */
  lemma ChildrenLogStep(parent: nat, cs: seq<Tree>, k: nat)
    requires k < |cs|
    ensures ChildrenLog(parent, cs[..k + 1]) == ChildrenLog(parent, cs[..k]) + (TeardownLog(cs[k]) + [Detached(parent, cs[k].id)])
  {
    assert cs[..k + 1][..k] == cs[..k];
    assert cs[..k + 1][k] == cs[k];
  }

  /** Post-order, first child first: the log of children `cs` is the log of the
      children before `cs[i]`, then the whole teardown of `cs[i]`, then its
      detachment, then the log of the children after it. */
  lemma ChildTornDownThenDetached(parent: nat, cs: seq<Tree>, i: nat)
    requires i < |cs|
    ensures ChildrenLog(parent, cs)
         == ChildrenLog(parent, cs[..i]) + TeardownLog(cs[i]) + [Detached(parent, cs[i].id)]
            + ChildrenLog(parent, cs[i + 1..])
  {
    assert cs == cs[..i + 1] + cs[i + 1..];
    ChildrenLogAppend(parent, cs[..i + 1], cs[i + 1..]);
    assert cs[..i + 1][..i] == cs[..i];
  }

  /** Every edge of the tree is detached, and nothing else is. */
  lemma {:induction false} DetachedIffEdge(t: Tree, p: nat, c: nat)
    ensures Detached(p, c) in TeardownLog(t) <==> (p, c) in Edges(t)
    decreases t, 1
  {
    ChildrenDetachedIffEdge(t.id, t.children, p, c);
    assert Detached(p, c) !in OwnLog(t) by { OwnLogHasNoDetach(t, p, c); }
  }

  lemma {:induction false} ChildrenDetachedIffEdge(parent: nat, cs: seq<Tree>, p: nat, c: nat)
    ensures Detached(p, c) in ChildrenLog(parent, cs) <==> (p, c) in ChildEdges(parent, cs)
    decreases cs, 0
  {
    if cs != [] {
      var last := cs[|cs| - 1];
      ChildrenDetachedIffEdge(parent, cs[..|cs| - 1], p, c);
      DetachedIffEdge(last, p, c);
    }
  }

  lemma OwnLogHasNoDetach(t: Tree, p: nat, c: nat)
    ensures Detached(p, c) !in OwnLog(t)
  {
    if IsMesh(t.meshMark) {
      match t.material
      case NoMaterial =>
      case Single(m) => MaterialLogHasNoDetach(m, p, c);
      case Several(ms) => MaterialsLogHasNoDetach(ms, p, c);
    }
  }

  lemma {:induction false} PropLogOnlyProperties(mid: nat, props: seq<(string, JsVal)>, e: Event)
    requires e in PropLog(mid, props)
    ensures e.PropertyDisposed? && e.material == mid
    decreases |props|
  {
    var last := props[|props| - 1];
    if e in PropLog(mid, props[..|props| - 1]) {
      PropLogOnlyProperties(mid, props[..|props| - 1], e);
    }
  }

  lemma MaterialLogHasNoDetach(m: Material, p: nat, c: nat)
    ensures Detached(p, c) !in MaterialLog(m)
  {
    if Detached(p, c) in PropLog(m.id, m.props) {
      PropLogOnlyProperties(m.id, m.props, Detached(p, c));
    }
  }

  lemma {:induction false} MaterialsLogHasNoDetach(ms: seq<Material>, p: nat, c: nat)
    ensures Detached(p, c) !in MaterialsLog(ms)
    decreases |ms|
  {
    if ms != [] {
      MaterialsLogHasNoDetach(ms[..|ms| - 1], p, c);
      MaterialLogHasNoDetach(ms[|ms| - 1], p, c);
    }
  }

  /** A geometry is disposed exactly when some mesh node of the tree holds it:
      nodes whose `isMesh` is not exactly `true` keep their geometry. */
  lemma {:induction false} GeometryDisposedIffMesh(t: Tree, g: nat)
    ensures GeometryDisposed(g) in TeardownLog(t) <==> g in MeshGeometries(t)
    decreases t, 1
  {
    ChildrenGeometryDisposedIff(t.id, t.children, g);
    if IsMesh(t.meshMark) {
      var matLog := match t.material
        case NoMaterial => []
        case Single(m) => MaterialLog(m)
        case Several(ms) => MaterialsLog(ms);
      assert GeometryDisposed(g) !in matLog by {
        match t.material
        case NoMaterial =>
        case Single(m) => MaterialLogHasNoGeometry(m, g);
        case Several(ms) => MaterialsLogHasNoGeometry(ms, g);
      }
    }
  }

  lemma {:induction false} ChildrenGeometryDisposedIff(parent: nat, cs: seq<Tree>, g: nat)
    ensures GeometryDisposed(g) in ChildrenLog(parent, cs) <==> g in ChildGeometries(cs)
    decreases cs, 0
  {
    if cs != [] {
      ChildrenGeometryDisposedIff(parent, cs[..|cs| - 1], g);
      GeometryDisposedIffMesh(cs[|cs| - 1], g);
    }
  }

  lemma MaterialLogHasNoGeometry(m: Material, g: nat)
    ensures GeometryDisposed(g) !in MaterialLog(m)
  {
    if GeometryDisposed(g) in PropLog(m.id, m.props) {
      PropLogOnlyProperties(m.id, m.props, GeometryDisposed(g));
    }
  }

  lemma {:induction false} MaterialsLogHasNoGeometry(ms: seq<Material>, g: nat)
    ensures GeometryDisposed(g) !in MaterialsLog(ms)
    decreases |ms|
  {
    if ms != [] {
      MaterialsLogHasNoGeometry(ms[..|ms| - 1], g);
      MaterialLogHasNoGeometry(ms[|ms| - 1], g);
    }
  }

  /** A material is disposed exactly when some mesh node of the tree holds it,
      alone or in its array: nodes whose `isMesh` is not exactly `true` keep
      their materials. */
  lemma {:induction false} MaterialDisposedIffMesh(t: Tree, mid: nat)
    ensures MaterialDisposed(mid) in TeardownLog(t) <==> mid in MeshMaterials(t)
    decreases t, 1
  {
    ChildrenMaterialDisposedIff(t.id, t.children, mid);
    if IsMesh(t.meshMark) {
      match t.material
      case NoMaterial =>
      case Single(m) => MaterialLogDisposes(m, mid);
      case Several(ms) => MaterialsLogDisposes(ms, mid);
    }
  }

  lemma {:induction false} ChildrenMaterialDisposedIff(parent: nat, cs: seq<Tree>, mid: nat)
    ensures MaterialDisposed(mid) in ChildrenLog(parent, cs) <==> mid in ChildMaterials(cs)
    decreases cs, 0
  {
    if cs != [] {
      ChildrenMaterialDisposedIff(parent, cs[..|cs| - 1], mid);
      MaterialDisposedIffMesh(cs[|cs| - 1], mid);
    }
  }

  /** disposeOneMaterial disposes its own material and no other. */
  lemma MaterialLogDisposes(m: Material, mid: nat)
    ensures MaterialDisposed(mid) in MaterialLog(m) <==> mid == m.id
  {
    if MaterialDisposed(mid) in PropLog(m.id, m.props) {
      PropLogOnlyProperties(m.id, m.props, MaterialDisposed(mid));
    }
  }

  /** An array of materials disposes exactly the materials of the array. */
  lemma {:induction false} MaterialsLogDisposes(ms: seq<Material>, mid: nat)
    ensures MaterialDisposed(mid) in MaterialsLog(ms) <==> mid in SlotMaterials(Several(ms))
    decreases |ms|
  {
    if ms != [] {
      var init, last := ms[..|ms| - 1], ms[|ms| - 1];
      MaterialsLogDisposes(init, mid);
      MaterialLogDisposes(last, mid);
      assert SlotMaterials(Several(ms)) == SlotMaterials(Several(init)) + {last.id} by {
        forall x | x in SlotMaterials(Several(ms))
          ensures x in SlotMaterials(Several(init)) + {last.id}
        {
          var i :| 0 <= i < |ms| && ms[i].id == x;
          if i < |init| { assert init[i] == ms[i]; }
        }
        forall x | x in SlotMaterials(Several(init))
          ensures x in SlotMaterials(Several(ms))
        {
          var i :| 0 <= i < |init| && init[i].id == x;
          assert ms[i] == init[i];
        }
        assert ms[|ms| - 1].id in SlotMaterials(Several(ms));
      }
    }
  }

  /** disposeOneMaterial disposes the material itself exactly once. */
  lemma MaterialDisposedOnce(m: Material)
    ensures multiset(MaterialLog(m))[MaterialDisposed(m.id)] == 1
  {
    MaterialLogDisposes(m, m.id);
    if MaterialDisposed(m.id) in PropLog(m.id, m.props) {
      PropLogOnlyProperties(m.id, m.props, MaterialDisposed(m.id));
    }
    assert multiset(MaterialLog(m)) == multiset(PropLog(m.id, m.props)) + multiset{MaterialDisposed(m.id)};
  }

  /** Disposing a concatenation of material arrays is disposing each in turn. */
  lemma {:induction false} MaterialsLogAppend(a: seq<Material>, b: seq<Material>)
    ensures MaterialsLog(a + b) == MaterialsLog(a) + MaterialsLog(b)
    decreases |b|
  {
    if b == [] {
      assert a + b == a;
    } else {
      var b', last := b[..|b| - 1], b[|b| - 1];
      MaterialsLogAppend(a, b');
      SplitLast(a, b);
      MaterialsLogSnoc(a + b', last);
      MaterialsLogSnoc(b', last);
      AppendAssoc(MaterialsLog(a), MaterialsLog(b'), MaterialLog(last));
    }
  }

  /** A material appended at the end of an array is disposed after all the
      others. */
  lemma MaterialsLogSnoc(ms: seq<Material>, m: Material)
    ensures MaterialsLog(ms + [m]) == MaterialsLog(ms) + MaterialLog(m)
  {
    assert (ms + [m])[..|ms|] == ms;
  }

  /** An array of materials is disposed in array order, one whole material at
      a time: the materials before `ms[i]`, then `ms[i]`, then those after it. */
  lemma MaterialsInArrayOrder(ms: seq<Material>, i: nat)
    requires i < |ms|
    ensures MaterialsLog(ms) == MaterialsLog(ms[..i]) + MaterialLog(ms[i]) + MaterialsLog(ms[i + 1..])
  {
    TakeDropSnoc(ms, i);
    MaterialsLogAppend(ms[..i + 1], ms[i + 1..]);
    MaterialsLogSnoc(ms[..i], ms[i]);
  }

  /** disposeOneMaterial disposes exactly the properties whose value has a
      function-valued `dispose`, and ends with the material itself. */
  lemma {:induction false} MaterialLogContents(m: Material, k: string)
    ensures |MaterialLog(m)| >= 1 && MaterialLog(m)[|MaterialLog(m)| - 1] == MaterialDisposed(m.id)
    ensures PropertyDisposed(m.id, k) in MaterialLog(m)
        <==> exists i :: 0 <= i < |m.props| && m.props[i].0 == k && IsDisposable(m.props[i].1)
  {
    PropLogContents(m.id, m.props, k);
  }

  lemma {:induction false} PropLogContents(mid: nat, props: seq<(string, JsVal)>, k: string)
    ensures PropertyDisposed(mid, k) in PropLog(mid, props)
        <==> exists i :: 0 <= i < |props| && props[i].0 == k && IsDisposable(props[i].1)
    decreases |props|
  {
    if props != [] {
      var init := props[..|props| - 1];
      PropLogContents(mid, init, k);
      if exists i :: 0 <= i < |init| && init[i].0 == k && IsDisposable(init[i].1) {
        var i :| 0 <= i < |init| && init[i].0 == k && IsDisposable(init[i].1);
        assert props[i] == init[i];
      }
      if exists i :: 0 <= i < |props| && props[i].0 == k && IsDisposable(props[i].1) {
        var i :| 0 <= i < |props| && props[i].0 == k && IsDisposable(props[i].1);
        if i < |init| { assert init[i] == props[i]; }
      }
    }
  }

  // ---------------------------------------------------------------------------
  // The source's disposeOneMaterial as written (see README, Findings)

  /** disposeOneMaterial with isDisporsal as written: the first property whose
      value is not an object makes it throw, before anything is disposed after it. */
  function DisposeOneMaterialAsWritten(m: Material): (r: Result<seq<Event>>)
    ensures r.Err? ==> r.error == TypeError
    ensures r.Ok? ==> r.value == MaterialLog(m)
  {
    AsWrittenAgreesWhenItReturns(m.id, m.props);
    var props :- PropLogAsWritten(m.id, m.props);
    Ok(props + [MaterialDisposed(m.id)])
  }

  /** The property loop as written: it stops with a TypeError at the first
      property value that is not an object. */
  function PropLogAsWritten(mid: nat, props: seq<(string, JsVal)>): (r: Result<seq<Event>>)
    ensures r.Err? ==> r.error == TypeError && exists i :: 0 <= i < |props| && !props[i].1.IsObject()
  {
    if props == [] then Ok([])
    else
      var last := props[|props| - 1];
      var init := props[..|props| - 1];
      assert forall i :: 0 <= i < |init| ==> init[i] == props[i];
      var logged :- PropLogAsWritten(mid, init);
      var disposable :- IsDisposableAsWritten(last.1);
      Ok(logged + (if disposable then [PropertyDisposed(mid, last.0)] else []))
  }

  /** Every three.js material carries primitive own properties (`isMaterial: true`,
      `name: ''`, ...): as written, disposing such a material throws, where the
      intended version disposes it. */
  lemma MaterialWithPrimitivePropThrows(mid: nat, texture: JsVal)
    requires IsDisposable(texture)
    ensures DisposeOneMaterialAsWritten(Material(mid, [("isMaterial", Bool(true)), ("map", texture)]))
         == Err(TypeError)
    ensures MaterialLog(Material(mid, [("isMaterial", Bool(true)), ("map", texture)]))
         == [PropertyDisposed(mid, "map"), MaterialDisposed(mid)]
  {
    var ps := [("isMaterial", Bool(true)), ("map", texture)];
    assert ps[..1][..0] == [];
    assert PropLogAsWritten(mid, ps[..1]) == Err(TypeError);
    assert PropLog(mid, ps[..1]) == [];
  }

  /** Where the written version does not throw, it disposes what the intended one does. */
  lemma {:induction false} AsWrittenAgreesWhenItReturns(mid: nat, props: seq<(string, JsVal)>)
    ensures PropLogAsWritten(mid, props).Ok? ==> PropLogAsWritten(mid, props).value == PropLog(mid, props)
    ensures PropLogAsWritten(mid, props).Ok? <==> forall i :: 0 <= i < |props| ==> props[i].1.IsObject()
    decreases |props|
  {
    if props != [] {
      var init := props[..|props| - 1];
      AsWrittenAgreesWhenItReturns(mid, init);
      assert forall i :: 0 <= i < |init| ==> init[i] == props[i];
    }
  }

  // ---------------------------------------------------------------------------
  // The scene-graph node and the teardown itself

  /** The footprints of a list of nodes, together. */
  ghost function Footprints(cs: seq<Object3D>): set<object>
    reads set c | c in cs
  {
    if cs == [] then {} else cs[0].Repr + Footprints(cs[1..])
  }

  /** A footprint disjoint from each node's is disjoint from their union. */
  lemma {:induction false} FootprintsDisjoint(cs: seq<Object3D>, s: set<object>)
    requires forall i :: 0 <= i < |cs| ==> cs[i].Repr !! s
    ensures Footprints(cs) !! s
  {
    if cs != [] {
      FootprintsDisjoint(cs[1..], s);
    }
  }

  /** A node of the scene graph. Its children are the only state the teardown
      changes; `model` is its abstract value and `Repr` the nodes below it. */
  class Object3D {
    const id: nat
    const meshMark: Option<JsVal>
    const geometry: Option<nat>
    const material: MaterialSlot
    var children: seq<Object3D>
    ghost var model: Tree
    ghost var Repr: set<object>

    /** Each child owns a footprint inside this node's, disjoint from its
        siblings', and the children's values are the model's children. The
        footprint holds nothing but this node and its children's footprints. */
    ghost predicate Valid()
      reads this, Repr
      decreases Repr
    {
      && this in Repr
      && model.id == id && model.meshMark == meshMark
      && model.geometry == geometry && model.material == material
      && |model.children| == |children|
      && (forall i :: 0 <= i < |children| ==>
            && children[i] in Repr && children[i].Repr <= Repr && this !in children[i].Repr
            && children[i].Valid() && children[i].model == model.children[i])
      && (forall i, j :: 0 <= i < j < |children| ==> children[i].Repr !! children[j].Repr)
      && Repr == {this} + Footprints(children)
    }

    /** A node without children. */
    constructor (id: nat, meshMark: Option<JsVal>, geometry: Option<nat>, material: MaterialSlot)
      ensures Valid() && fresh(Repr) && Repr == {this}
      ensures children == [] && model == Tree(id, meshMark, geometry, material, [])
    {
      this.id := id;
      this.meshMark := meshMark;
      this.geometry := geometry;
      this.material := material;
      children := [];
      model := Tree(id, meshMark, geometry, material, []);
      Repr := {this};
    }
  }

  /** disposeOneMaterial: dispose each disposable own property in key order,
      then the material. */
  method DisposeOneMaterial(m: Material) returns (log: seq<Event>)
    ensures log == MaterialLog(m)
  {
    log := [];
    var i := 0;
    while i < |m.props|
      invariant 0 <= i <= |m.props|
      invariant log == PropLog(m.id, m.props[..i])
    {
      var (key, prop) := m.props[i];
      if IsDisposable(prop) {
        log := log + [PropertyDisposed(m.id, key)];
      }
      i := i + 1;
      assert m.props[..i][..i - 1] == m.props[..i - 1];
    }
    assert m.props[..i] == m.props;
    log := log + [MaterialDisposed(m.id)];
  }

  /** disposeChildObject: while the node has children, tear down the first
      child and remove it; then, for a mesh, dispose its geometry and materials.
      Every node of the former subtree is left without children. */
  method DisposeChildObject(obj: Object3D) returns (log: seq<Event>)
    requires obj.Valid()
    modifies obj.Repr
    decreases obj.Repr, 2
    ensures obj.Valid() && obj.Repr == {obj}
    ensures obj.children == []
    ensures forall o: Object3D :: o in old(obj.Repr) ==> o.children == []
    ensures obj.model == old(obj.model).(children := [])
    ensures log == TeardownLog(old(obj.model))
  {
    log := RemoveAllChildren(obj);
    var own := DisposeMeshResources(obj.meshMark, obj.geometry, obj.material);
    log := log + own;
  }

  /** The loop of disposeChildObject: remove the first child until none is left. */
  method RemoveAllChildren(obj: Object3D) returns (log: seq<Event>)
    requires obj.Valid()
    modifies obj.Repr
    decreases obj.Repr, 1
    ensures obj.Valid() && obj.Repr == {obj}
    ensures obj.children == []
    ensures forall o: Object3D :: o in old(obj.Repr) ==> o.children == []
    ensures obj.model == old(obj.model).(children := [])
    ensures log == ChildrenLog(obj.id, old(obj.model.children))
  {
    ghost var original := obj.model;
    ghost var done := 0;
    log := [];
    while |obj.children| > 0
      invariant obj.Valid() && obj.Repr <= old(obj.Repr)
      invariant forall o: Object3D :: o in old(obj.Repr) && o !in obj.Repr ==> o.children == []
      invariant done <= |original.children|
      invariant obj.model == original.(children := original.children[done..])
      invariant log == ChildrenLog(obj.id, original.children[..done])
      decreases |obj.children|
    {
      ghost var next := original.children[done];
      assert obj.model.children[0] == next;
      var sub := RemoveFirstChild(obj);
      assert sub == TeardownLog(next) + [Detached(obj.id, next.id)];
      ChildrenLogStep(obj.id, original.children, done);
      log := log + sub;
      done := done + 1;
    }
    assert original.children[..done] == original.children;
  }

  /** One turn of disposeChildObject's loop: tear down `obj.children[0]`, then
      remove it from `obj`. */
  method RemoveFirstChild(obj: Object3D) returns (log: seq<Event>)
    requires obj.Valid() && obj.children != []
    modifies obj.Repr
    decreases obj.Repr, 0
    ensures obj.Valid() && obj.Repr == old(obj.Repr) - old(obj.children[0].Repr)
    ensures forall o: Object3D :: o in old(obj.children[0].Repr) ==> o.children == []
    ensures obj.children == old(obj.children[1..])
    ensures obj.model == old(obj.model).(children := old(obj.model.children[1..]))
    ensures log == TeardownLog(old(obj.model.children[0])) + [Detached(obj.id, old(obj.model.children[0].id))]
  {
    var child := obj.children[0];
    var rest := obj.children[1..];
    ghost var removed := child.Repr;
    FootprintsDisjoint(rest, removed);
    var sub := DisposeChildObject(child);
    obj.children := rest;
    obj.model := obj.model.(children := obj.model.children[1..]);
    obj.Repr := obj.Repr - removed;
    DropFirstKeepsValid(obj);
    log := sub + [Detached(obj.id, child.id)];
  }

  /** A valid node whose first child is dropped stays valid, provided nothing
      in its other children's footprints has changed. */
  twostate lemma DropFirstKeepsValid(obj: Object3D)
    requires old(obj.Valid()) && old(obj.children) != []
    requires forall i :: 1 <= i < |old(obj.children)| ==> unchanged(old(obj.children[i].Repr))
    requires obj.children == old(obj.children[1..])
    requires obj.model == old(obj.model).(children := old(obj.model.children[1..]))
    requires obj.Repr == old(obj.Repr) - old(obj.children[0].Repr)
    ensures obj.Valid()
  {
    ghost var rest := obj.children;
    ghost var removed := old(obj.children[0].Repr);
    forall i | 0 <= i < |rest|
      ensures rest[i].Repr == old(rest[i].Repr) && rest[i].model == old(rest[i].model)
      ensures rest[i].Valid() && rest[i].Repr !! removed && obj !in rest[i].Repr
    {
      assert old(obj.children[i + 1]) == rest[i];
      assert old(rest[i].Valid()) && rest[i] in old(rest[i].Repr);
    }
    assert old(Footprints(obj.children)) == removed + old(Footprints(rest));
    assert Footprints(rest) == old(Footprints(rest));
    FootprintsDisjoint(rest, removed);
  }


  /** The tail of disposeChildObject: a node whose `isMesh` is exactly `true`
      disposes a truthy geometry, then its material or each of its materials. */
  method DisposeMeshResources(meshMark: Option<JsVal>, geometry: Option<nat>, material: MaterialSlot)
    returns (log: seq<Event>)
    ensures log == MeshLog(meshMark, geometry, material)
  {
    log := [];
    if IsMesh(meshMark) {
      if geometry.Some? {
        log := log + [GeometryDisposed(geometry.value)];
      }
      match material
      case NoMaterial =>
      case Single(m) =>
        var sub := DisposeOneMaterial(m);
        log := log + sub;
      case Several(ms) =>
        var i := 0;
        var disposed := [];
        while i < |ms|
          invariant i <= |ms|
          invariant disposed == MaterialsLog(ms[..i])
        {
          var sub := DisposeOneMaterial(ms[i]);
          disposed := disposed + sub;
          i := i + 1;
          assert ms[..i][..i - 1] == ms[..i - 1];
        }
        assert ms[..i] == ms;
        log := log + disposed;
    }
  }
}
