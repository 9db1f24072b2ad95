# weykthree core, modelled in Dafny

This project models the bookkeeping core of the weykthree plugin. The plugin
gives the Nadesiko scripting language commands for driving three.js. The model
covers four parts.

- **Scene teardown** (`ThreeUtil` in `src/plugin_three.ts`, module `ThreeUtil`).
  `disposeChildObject` detaches the children of a scene-graph node, always
  taking the first child. It tears each child down before detaching it. After
  that, a mesh disposes its geometry and its material or materials.
  `disposeOneMaterial` disposes each disposable property of a material, then
  the material itself. Every `dispose()` and `remove(child)` call is one event
  in a log. Each imperative method is proved equal to a recursive
  specification of that log. Lemmas then prove what the log contains and in
  what order.
- **The manager object** (`WeykThreeSystem` in `src/plugin_weykthree.ts`,
  module `WeykThree`):
  - the singleton registry and its use counter;
  - how the library handle is found (the `three` field, then the host's system
    variable THREE, then the global `window.THREE`), and how the system
    variable is back-filled;
  - argument normalisation: `parsePos`, `parseQuat`, `parseVec3`, `isLazyXYZ`
    and `isLazyXYZW`;
  - property-path resolution with the Japanese synonym table (`resolveProp`);
  - the scene list that `clearAll` tears down and that scene creation extends.
- **The loader commands** (module `PluginLoader`):
  - the URLs that the library and the extension modules are imported from;
  - the closure counters that settle the strict plugin loader and fire the
    callback plugin loader;
  - the decision whether the library has to be imported at all.
- **Argument decoding inside commands** (module `Commands`):
  - camera-up direction strings;
  - rectangles given as arrays or as objects;
  - buffer-usage names;
  - rotation-axis letters;
  - the `||`-default option chains of the plane geometry command.

JavaScript values are the datatype `JsValues.JsVal`. The model spells out the
three operators the source relies on:

- `'k' in v` throws a TypeError on primitives, null and undefined;
- `v == null` holds for both null and undefined;
- truthiness.

A thrown exception is an `Err` of `JsValues.Result`. The `dispose()` calls,
`remove()` calls and dynamic imports are not run. They become events, or
outcomes passed in as parameters.

## Model

| member | source | states |
|---|---|---|
| ThreeUtil.IsDisposableAsWritten | src/plugin_three.ts:91-93 | isDisporsal throws a TypeError exactly when the value is not an object. Otherwise it is true iff the value has a `dispose` property holding a function. |
| ThreeUtil.IsDisposable | src/plugin_three.ts:91-93 | The intended isDisporsal: only an object whose `dispose` property holds a function is disposable. A primitive, null or undefined never is. |
| ThreeUtil.IsMesh | src/plugin_three.ts:95-97 | isMesh holds only when the node's `isMesh` property is exactly `true`. Any other mark, even a truthy one such as `1` or `'true'`, does not count. |
| ThreeUtil.PropLogAsWritten | src/plugin_three.ts:100-105 | The written property loop throws only with a TypeError, and only when some property value is not an object. |
| ThreeUtil.DisposeOneMaterialAsWritten | src/plugin_three.ts:99-107 | The written disposeOneMaterial fails only with a TypeError. When it returns, its log is exactly the intended `MaterialLog`. |
| ThreeUtil.DisposeOneMaterial | src/plugin_three.ts:99-107 | The loop over the material's own keys disposes each disposable property value in key order, then the material. The result is the log `MaterialLog(m)`. |
| ThreeUtil.PropLogContents | src/plugin_three.ts:100-105 | A property key is disposed iff some own property with that key holds a disposable value. |
| ThreeUtil.MaterialLogContents | src/plugin_three.ts:99-107 | The material's own disposal comes last. A property disposal appears iff that key holds a disposable value. |
| ThreeUtil.PropLogOnlyProperties | src/plugin_three.ts:100-105 | The property loop disposes only properties of this material. |
| ThreeUtil.DisposeChildObject | src/plugin_three.ts:109-127 | Afterwards every node of the former subtree has no children, and the node's footprint is the node alone. Its other state is unchanged. The log is `TeardownLog` of the original tree: each child's teardown, then that child's detachment, then the node's own mesh disposals. Materials are disposed by the intended `DisposeOneMaterial` (see Left out). |
| ThreeUtil.RemoveAllChildren | src/plugin_three.ts:110-113 | The while loop ends with no children and every node below left childless. Its log is the children's teardowns and detachments, first child first. |
| ThreeUtil.RemoveFirstChild | src/plugin_three.ts:110-113 | One loop turn: `children[0]` is torn down, then detached, and every node of its subtree is left childless. The remaining children move up by one, and the footprint loses exactly the removed subtree. |
| ThreeUtil.ChildrenLogStep | src/plugin_three.ts:110-113 | One more loop turn extends the log by the next child's teardown, then its detachment. |
| ThreeUtil.DisposeMeshResources | src/plugin_three.ts:114-126 | Only a node whose `isMesh` is exactly `true` disposes anything. It disposes a truthy geometry, then the single material or each material of the array in array order. |
| ThreeUtil.ChildrenLogAppend | src/plugin_three.ts:110-113 | Tearing down a concatenation of child lists is tearing down each list in turn. |
| ThreeUtil.ChildTornDownThenDetached | src/plugin_three.ts:110-113 | The children go first to last. Each child's whole subtree is torn down before the child is removed from its parent. |
| ThreeUtil.DetachedIffEdge | src/plugin_three.ts:109-113 | A teardown detaches exactly the parent-child links of the tree, and nothing else. |
| ThreeUtil.ChildrenDetachedIffEdge | src/plugin_three.ts:110-113 | Across a list of children, the detachments are exactly the links under that parent. |
| ThreeUtil.OwnLogHasNoDetach | src/plugin_three.ts:114-126 | A node's mesh disposals never detach anything. |
| ThreeUtil.MaterialLogHasNoDetach | src/plugin_three.ts:99-107 | Disposing a material detaches nothing. |
| ThreeUtil.MaterialsLogHasNoDetach | src/plugin_three.ts:117-120 | Disposing an array of materials detaches nothing. |
| ThreeUtil.GeometryDisposedIffMesh | src/plugin_three.ts:109-127 | A geometry is disposed iff some mesh node of the tree holds it. Geometries of non-mesh nodes are never disposed. |
| ThreeUtil.ChildrenGeometryDisposedIff | src/plugin_three.ts:110-113 | Across a list of children, the geometries disposed are exactly those held by mesh nodes below them. |
| ThreeUtil.MaterialDisposedIffMesh | src/plugin_three.ts:109-127 | A material is disposed iff some mesh node of the tree holds it, alone or in its array. Materials of non-mesh nodes are never disposed. |
| ThreeUtil.ChildrenMaterialDisposedIff | src/plugin_three.ts:110-113 | Across a list of children, the materials disposed are exactly those held by mesh nodes below them. |
| ThreeUtil.MaterialLogDisposes | src/plugin_three.ts:99-107 | disposeOneMaterial disposes its own material and no other. |
| ThreeUtil.MaterialDisposedOnce | src/plugin_three.ts:99-107 | disposeOneMaterial disposes the material itself exactly once. |
| ThreeUtil.MaterialsLogDisposes | src/plugin_three.ts:117-120 | An array of materials disposes exactly the materials in the array. |
| ThreeUtil.MaterialsLogAppend | src/plugin_three.ts:117-120 | Disposing a concatenation of material arrays is disposing each array in turn. |
| ThreeUtil.MaterialsInArrayOrder | src/plugin_three.ts:117-120 | An array is disposed one whole material at a time, in array order: everything before `ms[i]`, then `ms[i]`, then everything after it. |
| ThreeUtil.MaterialLogHasNoGeometry | src/plugin_three.ts:99-107 | Disposing a material disposes no geometry. |
| ThreeUtil.MaterialsLogHasNoGeometry | src/plugin_three.ts:117-120 | Disposing an array of materials disposes no geometry. |
| ThreeUtil.MaterialWithPrimitivePropThrows | src/plugin_three.ts:99-104 | As written, a material with a primitive own property followed by a disposable one throws. The intended version disposes the property, then the material. |
| ThreeUtil.AsWrittenAgreesWhenItReturns | src/plugin_three.ts:99-104 | The written loop returns iff every property value is an object. When it returns, it disposes what the intended loop disposes. |
| WeykThree.Rename | src/plugin_weykthree.ts:86-90 | A synonym maps to its library name and any other key is kept. No result is itself a synonym. |
| WeykThree.WeykThreeSystem.ResolveProp | src/plugin_weykthree.ts:189-203 | The loop applies the keys in list order. The result is `Walk(obj, keylist)`. |
| WeykThree.WalkAppend | src/plugin_weykthree.ts:189-203 | Resolving a concatenated key list is resolving the first list, then the second. |
| WeykThree.WalkStopsAtNullish | src/plugin_weykthree.ts:193 | Once the current object is null or undefined, later keys leave it unchanged. |
| WeykThree.NullishPrefixDecides | src/plugin_weykthree.ts:189-203 | A prefix of the path that reaches null or undefined decides the result. |
| WeykThree.SynonymsAreAliases | src/plugin_weykthree.ts:194-196 | A key list and its renamed form resolve to the same value. |
| WeykThree.Promote | src/plugin_weykthree.ts:222-238 | getThree's result: the field if set, else the system variable, else the global, else LibraryNotLoaded. On success, the field holds the result and an empty system variable is back-filled. |
| WeykThree.PromoteIdempotent | src/plugin_weykthree.ts:222-238 | After one successful getThree, another call returns the same library and changes nothing, whatever the global holds by then. |
| WeykThree.NeedsLibraryFetch | src/plugin_weykthree.ts:319 | The library loader imports exactly when getThree would fail. |
| WeykThree.WeykThreeSystem.constructor | src/plugin_weykthree.ts:76-91 | A new manager starts with no library, no scene, no camera, an empty scene list and a use count of 0. |
| WeykThree.WeykThreeSystem.GetThree | src/plugin_weykthree.ts:222-238 | It moves the field and the host's system variable exactly as `Promote` says. On success, checkThree holds. |
| WeykThree.WeykThreeSystem.CheckThree | src/plugin_weykthree.ts:205-207 | checkThree holds iff the field holds a library, and then getThree returns that library whatever the system variable and the global hold. |
| WeykThree.WeykThreeSystem.SetThree | src/plugin_weykthree.ts:209-212 | It returns the given library and stores it in the field. It fills the system variable only if that was empty. |
| WeykThree.WeykThreeSystem.IsLazyXYZ | src/plugin_weykthree.ts:145-147 | It throws iff the value is a non-nullish primitive. It is true iff the value is an object with `x`, `y` and `z`. |
| WeykThree.WeykThreeSystem.IsLazyXYZW | src/plugin_weykthree.ts:149-151 | As IsLazyXYZ, with `w` as well. |
| WeykThree.WeykThreeSystem.ParsePos | src/plugin_weykthree.ts:153-168 | It throws iff the value is a non-nullish primitive. It gives a position iff the value is a 3-element array or an object with x, y and z. An array gives its elements in order. An object gives its fields, calling those that are functions. |
| WeykThree.WeykThreeSystem.ParseQuat | src/plugin_weykthree.ts:170-187 | The same as ParsePos, for a 4-element array or an object with x, y, z and w. |
| WeykThree.VectorComponent | src/plugin_weykthree.ts:140 | A component handed to the Vector3 constructor is never undefined: undefined becomes 0, as the constructor's defaults make it, and any other value is kept. |
| WeykThree.WeykThreeSystem.ParseVec3 | src/plugin_weykthree.ts:127-143 | getThree runs first, and its failure is the result. A Vector3 passes through, and null or undefined gives the zero vector. A 3-element array gives its elements, and an object with x, y and z gives its fields, functions called. Undefined components become 0. Primitives throw, and other values give nothing. |
| WeykThree.WeykThreeSystem.ClearAll | src/plugin_weykthree.ts:93-104 | Every node of every registered scene ends without children, and the log is the scenes' teardowns in list order. Then the current scene, the camera and the list are cleared. The library and the use count are unchanged. This is the behaviour with the intended material disposal (see Left out). |
| WeykThree.WeykThreeSystem.DisposeScenes | src/plugin_weykthree.ts:96-100 | The loop of clearAll tears the scenes down in list order. Every node of every scene ends childless, and the log is `ScenesLog` of the scenes. |
| WeykThree.WeykThreeSystem.DisposeScene | src/plugin_weykthree.ts:96-100 | One loop turn of clearAll: every node of scene k is left childless and the other scenes are untouched. |
| WeykThree.ScenesLogStep | src/plugin_weykthree.ts:96-100 | One more loop turn extends the log by the next scene's teardown. |
| WeykThree.ScenesLogDetachesEdges | src/plugin_weykthree.ts:93-104 | clearAll detaches exactly the parent-child links found in the registered scenes. |
| WeykThree.WeykThreeSystem.CreateScene | src/plugin_weykthree.ts:495-505 | getThree runs first, and its failure leaves the list alone. On success, a fresh scene becomes the current scene and is appended to the list. It is a plain node: not a mesh, with no geometry, no material and no children, and its footprint is itself alone. |
| WeykThree.WeykThreeSystem.AddScene | src/plugin_weykthree.ts:502-503 | A new scene outside every registered tree becomes the current scene and the last one in the list. Everything else stays as it was. |
| WeykThree.PluginRegistry.GetInstance | src/plugin_weykthree.ts:67-74 | The first call creates the instance with no library, scene, camera or scenes. Every later call returns the same instance. Each call adds exactly one to its use count and changes nothing else. |
| PluginLoader.LibraryUrl | src/plugin_weykthree.ts:322 | An empty base URL gives the library name alone. Otherwise the URL is the base URL, `/build/`, then the library name. |
| PluginLoader.PluginUrl | src/plugin_weykthree.ts:388 | An empty base URL gives the plugin name alone. Otherwise the URL is the base URL, `/examples/jsm/`, then the plugin name. |
| PluginLoader.DefaultLibraryUrl | src/plugin_weykthree.ts:309-310 | With the default variables, the library comes from the three@0.127.0 build directory on the CDN. |
| PluginLoader.PluginUrlInjective | src/plugin_weykthree.ts:388 | Under one base URL, distinct plugin names are fetched from distinct URLs. |
| PluginLoader.CountTrue | src/plugin_weykthree.ts:374-377 | The success count is at most the number of outcomes. It equals that number iff every outcome succeeded. |
| PluginLoader.StrictTally.Report | src/plugin_weykthree.ts:373-385 | Each outcome adds one to the total, and a success adds one to the success count. At the last outcome, the loader resolves if all succeeded and otherwise rejects with both counts. |
| PluginLoader.CallbackTally.Report | src/plugin_weykthree.ts:416-421 | Each outcome adds one to the count. The callback fires exactly when the count reaches the total. |
| PluginLoader.LoadPlugins | src/plugin_weykthree.ts:362-401 | It requests one URL per plugin, in list order. It stays pending until every outcome has arrived, then resolves iff all succeeded. Once every outcome has arrived and one of them failed, it rejects with the success count and the total. An empty list resolves at once. |
| PluginLoader.LoadPluginsThen | src/plugin_weykthree.ts:407-437 | It requests one URL per plugin. The callback runs exactly once, after the last outcome, whatever the outcomes. For an empty list it runs at once. |
| PluginLoader.LoadLibrary | src/plugin_weykthree.ts:317-333 | It imports only when no handle is available, and then adopts the module through setThree. A failed import is the result. Otherwise it runs getThree and yields true. |
| Commands.CameraUpDirection | src/plugin_weykthree.ts:1058-1074 | A string is accepted iff it is one of the six signed axis names. The result is the unit vector along that axis, in that direction. Any other value goes through parsePos: an object with x, y and z gives those fields, functions called, and a rejected value is an error. |
| Commands.RectFromArg | src/plugin_weykthree.ts:1129-1142 | A 4-element array is read as left, top, right, bottom. Any other object is accepted iff it has `left`, and then gives its `left`, `top`, `right` and `bottom` fields. A primitive throws, and anything else is an error. |
| Commands.RectFormsAgree | src/plugin_weykthree.ts:1129-1139 | The array form and the object form of the same rectangle decode to the same edges. |
| Commands.UsageFromOption | src/plugin_weykthree.ts:1362-1373 | A string is the dynamic usage iff it is a dynamic name, and the static usage iff it is a static name. Any other string gives null. A non-string is passed through unchanged. |
| Commands.RotationAxis | src/plugin_weykthree.ts:1314-1324 | The axis is accepted iff it is X, Y or Z in either case. Any other string is an error. |
| Commands.OptionOr | src/plugin_weykthree.ts:1393-1397 | A chain `opts[a] \|\| opts[b] \|\| … \|\| d` gives the first truthy option, with all earlier options falsy. If every option is falsy, it gives the default. |
| Commands.OptionOrFirstWins | src/plugin_weykthree.ts:1393-1397 | A truthy option under the first name always wins. |
| Commands.OptionOrSkipsFalsy | src/plugin_weykthree.ts:1393-1397 | A falsy option, such as 0, '', false or a missing key, falls through to the next name. |
| Commands.OptionOrTwo | src/plugin_weykthree.ts:1395-1397 | A two-name chain gives the first name if truthy, else the second if truthy, else the default. |
| Commands.OptionOrThree | src/plugin_weykthree.ts:1393 | A three-name chain gives the first truthy of the three names, else the default. |
| Commands.PlaneOptions | src/plugin_weykthree.ts:1393-1401 | Reading options from null or undefined throws, and only that. Otherwise the plane's arguments are decoded, as `PlaneOptionsMeaning` states. |
| Commands.PlaneOptionsMeaning | src/plugin_weykthree.ts:1393-1401 | The width is the first truthy of `幅`, `W` and `width`, and the height the first truthy of `高さ` and `H`, else 1. Each segment count is the first truthy of its Japanese and library option, else 1. The buffered variant is used iff a buffer option is truthy and the library has that class. |
| Commands.PlaneDefaults | src/plugin_weykthree.ts:1393-1397 | An empty option object gives a 1 by 1 plane with one segment each way, not buffered. |
| Commands.PlaneWidthSegmentsAsWritten | src/plugin_weykthree.ts:1395 | As written, a truthy `横分割数` is used as the width segments. Otherwise a truthy `heightSegments` is used, else 1. |
| Commands.WidthSegmentsIgnoreHeightSegments | src/plugin_weykthree.ts:1395 | The corrected width segments never depend on the `heightSegments` option. |
| Commands.WidthSegmentsOptionIgnored | src/plugin_weykthree.ts:1395 | As written, `{widthSegments: 4}` gives one width segment. The corrected decoding gives four. |

## Left out

- Rendering, the DOM, the renderer set-up (`setupRenderer`) and the roughly 150 one-line commands that construct or call library objects are not modelled. They are foreign calls with no logic of their own.
- `getManager` and `getEnv` (src/plugin_weykthree.ts:240-255) are not modelled. The command models start after them: each takes the manager and the library state as arguments.
- Dynamic `import()`, promises and `await` are not modelled. An import's outcome is a parameter. The order in which plugin outcomes arrive is the order of the `outcomes` sequence, and the model only counts them.
- `mergeThreeExt` and `getThreeExt` are left out: they copy the members of a foreign module into an object, which has no logic of its own. A successful plugin import is modelled only as a success outcome.
- The initialisation command (src/plugin_weykthree.ts:294-305) is not modelled. Before it runs, the system variable THREE holds `''` rather than null. The model's `Option` for that variable does not represent `''`.
- The callback library loader (src/plugin_weykthree.ts:339-354) makes the same decision as `PluginLoader.LoadLibrary`, but calls back instead of returning. It is not modelled separately.
- The camera is only recorded in the manager as an id. The camera command that sets it (src/plugin_weykthree.ts:1031) is a library call.
- `clearAll` skips null entries of the scene list (src/plugin_weykthree.ts:97). Scene creation never pushes null, so the model's list holds no null and has no such branch.
- The rectangle command first resolves its target object through `resolveProp` when the camera argument lacks `left` (src/plugin_weykthree.ts:1126-1128). Only the rectangle decoding is modelled, and the assignment to the camera is not.
- Box and sphere geometry options (src/plugin_weykthree.ts:1406-1448) use the same `||` chains as the plane and are not modelled separately. The box command repeats the plane's `heightSegments` slip at line 1415.
- Floating point is not modelled: numbers are reals. Truthiness therefore ignores NaN and -0.
- An object's property map stands for every property that `in` and `v[k]` see, own or inherited, such as a `dispose` method on a class prototype. A `Material`'s `props` is a separate list: the `Object.keys` names, own and enumerable, with their values. Built-ins that every object inherits are not in the map, such as array and string `length` and the `constructor` that a plain object like `propMap` inherits.
- Array index keys are not modelled: `JsVal.Get` on an array reads every key, `'0'` included, as undefined. A `resolveProp` path through an array index such as `'0'` therefore stops at undefined in the model, where the source reaches the element.
- The registered scenes are taken to be disjoint trees: no scene is added inside another one. Were one scene a child of another, the source would find it already empty when its own turn in `clearAll` came, while the model's log would tear it down twice.
- Lazy fields are thunks without side effects: calling one is modelled as reading its result.
- `parseVec3` recognises a Vector3 with `instanceof` against the loaded library. A vector from another copy of the library is not modelled.
- ThreeUtil.DisposeOneMaterial: follows the intended isDisporsal, not the written one. The written one is kept as `ThreeUtil.IsDisposableAsWritten` and `ThreeUtil.DisposeOneMaterialAsWritten` (see Findings).
- ThreeUtil.DisposeChildObject, WeykThree.WeykThreeSystem.ClearAll: both are built on the intended material disposal. As written, disposeOneMaterial throws a TypeError on any material with a primitive own property, which every three.js material has (`uuid`, `name`, `type`). Nothing catches it. So the written teardown stops at the first mesh with a material, after disposing its geometry. That mesh stays attached, and clearAll clears neither the current scene, the camera nor the list. The model does not capture this early exit.
- ThreeUtil.DisposeMeshResources: `isMesh` tests only the value `true`, so the `'isMesh' in obj` test before it adds nothing for scene-graph nodes. Nodes are always objects there.
- Commands.PlaneOptions: uses `widthSegments` as the second name for the width segments, as the sphere command does at line 1434. It does not use the written `heightSegments` (see Findings).

## Findings

| source | as written | input that shows it | evidently intended | confidence | as-written member | corrected member |
|---|---|---|---|---|---|---|
| src/plugin_three.ts:91-93 | isDisporsal evaluates `'dispose' in obj` on every property value. `in` throws a TypeError when that value is a primitive. | A material with own properties `isMaterial: true` and a disposable `map` throws before anything is disposed (`ThreeUtil.MaterialWithPrimitivePropThrows`). In consequence, clearAll on a scene whose one child is a mesh with geometry g and a three.js material disposes g, then throws: the mesh is not detached, and the current scene, the camera and the list keep their values. | Primitive values are simply not disposable: `map`, then the material, are disposed. | high; not executed | ThreeUtil.IsDisposableAsWritten | ThreeUtil.DisposeOneMaterial |
| src/plugin_weykthree.ts:1395 | The width segments fall back to the option `heightSegments`. | `{widthSegments: 4}` gives one width segment (`Commands.WidthSegmentsOptionIgnored`). | The option `widthSegments`, as the sphere command reads it at line 1434. | high; not executed | Commands.PlaneWidthSegmentsAsWritten | Commands.PlaneOptions |
