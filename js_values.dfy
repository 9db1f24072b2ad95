/** The loosely typed JavaScript values that the plugin's commands receive,
    and the few operators on them that the argument-normalisation code uses:
    `v == null`, `'k' in v`, `v[k]`, `typeof v === 'function'` and truthiness. */
module JsValues {

  datatype Option<+T> = None | Some(value: T)

  /** What a command can throw. */
  datatype Error =
    | TypeError                       // `'k' in v` on a primitive, null or undefined
    | LibraryNotLoaded                // getThree found no library handle
    | BadUpDirection                  // camera-up argument is neither a known string nor a position
    | BadRect                         // rectangle is neither a 4-array nor an object with `left`
    | BadAxis                         // rotation axis is not X, Y or Z
    | PluginsFailed(succeeded: nat, total: nat)  // strict plugin loader: some import failed
    | ImportFailed                    // the dynamic import of the library module failed

  datatype Result<+T> = Ok(value: T) | Err(error: Error) {
    predicate IsFailure() {
      Err?
    }

    function PropagateFailure<U>(): Result<U>
      requires Err?
    {
      Err(error)
    }

    function Extract(): T
      requires Ok?
    {
      value
    }
  }

  /** A JavaScript value. An object `Obj(props)` maps every property name that
      `in` and `v[k]` see, own or inherited through the prototype chain (a
      `dispose` method on a class prototype is in `props`). A zero-argument
      function is `Fn(result)`: calling it yields `result`. `Vector3` is an
      instance of the library's vector class, whose fields are `x`, `y` and `z`. */
  datatype JsVal =
    | Undefined
    | Null
    | Bool(b: bool)
    | Num(n: real)
    | Str(s: string)
    | Arr(items: seq<JsVal>)
    | Obj(props: map<string, JsVal>)
    | Fn(result: JsVal)
    | Vector3(x: JsVal, y: JsVal, z: JsVal)
  {
    /** `v == null` with JavaScript's loose equality: true for null and undefined. */
    predicate IsNullish() {
      Null? || Undefined?
    }

    /** A primitive that is not nullish: `'k' in v` throws on these. */
    predicate IsPrimitive() {
      Bool? || Num? || Str?
    }

    /** An object (array, plain object, function or class instance). */
    predicate IsObject() {
      !IsNullish() && !IsPrimitive()
    }

    /** The property names `in` finds on an object, own or inherited. An
        array's index keys and built-in members such as `length` are not
        modelled. */
    function Keys(): set<string>
      requires IsObject()
    {
      match this
      case Obj(m) => m.Keys
      case Vector3(_, _, _) => {"x", "y", "z"}
      case _ => {}
    }

    /** `v[k]` on a non-nullish value: a missing property reads as undefined.
        Index keys of arrays are not modelled, so they read as undefined too. */
    function Get(k: string): (r: JsVal)
      requires !IsNullish()
      ensures IsObject() && k !in Keys() ==> r == Undefined
    {
      match this
      case Obj(m) => if k in m then m[k] else Undefined
      case Vector3(x, y, z) => if k == "x" then x else if k == "y" then y else if k == "z" then z else Undefined
      case _ => Undefined
    }
  }

  /** The `in` operator: `'k' in v` throws a TypeError unless `v` is an object. */
  function HasProp(v: JsVal, k: string): (r: Result<bool>)
    ensures r.Err? <==> !v.IsObject()
    ensures r.Ok? ==> (r.value <==> k in v.Keys())
  {
    if v.IsObject() then Ok(k in v.Keys()) else Err(TypeError)
  }

  /** `typeof v === 'function' ? v() : v`: a lazy field is called, any other value is kept. */
  function Force(v: JsVal): (r: JsVal)
    ensures !v.Fn? ==> r == v
  {
    if v.Fn? then v.result else v
  }

  /** JavaScript truthiness. NaN and -0 are not modelled. */
  predicate Truthy(v: JsVal) {
    match v
    case Undefined => false
    case Null => false
    case Bool(b) => b
    case Num(n) => n != 0.0
    case Str(s) => s != ""
    case _ => true
  }
}
