/** The loader commands of src/plugin_weykthree.ts: where the library and its
    extension modules are fetched from, and how the outcomes of the plugin
    imports are tallied. Each import reports exactly one outcome, in whatever
    order they arrive; the model is fed those outcomes in arrival order. */
module PluginLoader {
  import opened JsValues
  import opened WeykThree

  /** The initial values of the host variables TJSベースURL and TJSライブラリ名. */
  const DefaultBaseUrl: string := "https://cdn.jsdelivr.net/npm/three@0.127.0"
  const DefaultLibraryName: string := "three.module.js"

  /** Where the library module is imported from. */
  function LibraryUrl(baseUrl: string, libName: string): (url: string)
    ensures baseUrl == "" ==> url == libName
    ensures baseUrl != "" ==>
              && |url| == |baseUrl| + 7 + |libName|
              && url[..|baseUrl|] == baseUrl
              && url[|baseUrl|..|baseUrl| + 7] == "/build/"
              && url[|baseUrl| + 7..] == libName
  {
    if baseUrl == "" then libName else baseUrl + "/build/" + libName
  }

  /** Where an extension module is imported from. */
  function PluginUrl(baseUrl: string, name: string): (url: string)
    ensures baseUrl == "" ==> url == name
    ensures baseUrl != "" ==>
              && |url| == |baseUrl| + 14 + |name|
              && url[..|baseUrl|] == baseUrl
              && url[|baseUrl|..|baseUrl| + 14] == "/examples/jsm/"
              && url[|baseUrl| + 14..] == name
  {
    if baseUrl == "" then name else baseUrl + "/examples/jsm/" + name
  }

  /** With the default settings the library comes from the CDN's build directory. */
  lemma DefaultLibraryUrl()
    ensures LibraryUrl(DefaultBaseUrl, DefaultLibraryName)
         == "https://cdn.jsdelivr.net/npm/three@0.127.0/build/three.module.js"
  {
  }

  /** Under one base URL, distinct plugin names are fetched from distinct URLs. */
  lemma PluginUrlInjective(baseUrl: string, a: string, b: string)
    requires PluginUrl(baseUrl, a) == PluginUrl(baseUrl, b)
    ensures a == b
  {
  }

  /** The number of successful outcomes. */
  function CountTrue(outcomes: seq<bool>): (n: nat)
    ensures n <= |outcomes|
    ensures n == |outcomes| <==> forall i :: 0 <= i < |outcomes| ==> outcomes[i]
  {
    if outcomes == [] then 0
    else
      var init := outcomes[..|outcomes| - 1];
      assert forall i :: 0 <= i < |init| ==> init[i] == outcomes[i];
      CountTrue(init) + (if outcomes[|outcomes| - 1] then 1 else 0)
  }

  /** The state of the strict loader's promise. */
  datatype Settlement = Pending | Resolved | Rejected(error: Error)

  /** The closure of the strict loader (`countTotal`, `countSuccess`). */
  class StrictTally {
    const total: nat
    var countTotal: nat
    var countSuccess: nat

    constructor (total: nat)
      ensures this.total == total && countTotal == 0 && countSuccess == 0
    {
      this.total := total;
      countTotal := 0;
      countSuccess := 0;
    }

    /** One outcome: count it; when it is the last one, resolve if all
        succeeded, else reject with the counts. */
    method Report(success: bool) returns (s: Settlement)
      modifies this
      ensures countTotal == old(countTotal) + 1
      ensures countSuccess == old(countSuccess) + (if success then 1 else 0)
      ensures countTotal != total ==> s == Pending
      ensures countTotal == total && countSuccess == countTotal ==> s == Resolved
      ensures countTotal == total && countSuccess != countTotal ==> s == Rejected(PluginsFailed(countSuccess, countTotal))
    {
      countTotal := countTotal + 1;
      if success {
        countSuccess := countSuccess + 1;
      }
      s := Pending;
      if countTotal == total {
        if countTotal == countSuccess {
          s := Resolved;
        } else {
          s := Rejected(PluginsFailed(countSuccess, countTotal));
        }
      }
    }
  }

  /** The closure of the callback loader (`count`). */
  class CallbackTally {
    const total: nat
    var count: nat

    constructor (total: nat)
      ensures this.total == total && count == 0
    {
      this.total := total;
      count := 0;
    }

    /** One outcome, successful or not: the callback fires when it is the last. */
    method Report(success: bool) returns (fired: bool)
      modifies this
      ensures count == old(count) + 1
      ensures fired <==> count == total
    {
      count := count + 1;
      fired := count == total;
    }
  }

  /** TJSプラグイン読込: request every plugin, then settle once every outcome
      has arrived: resolved iff all succeeded. An empty list resolves at once. */
  method LoadPlugins(baseUrl: string, plugins: seq<string>, outcomes: seq<bool>)
    returns (requested: seq<string>, s: Settlement)
    requires |outcomes| <= |plugins|
    ensures |plugins| == 0 ==> requested == [] && s == Resolved
    ensures |plugins| > 0 ==>
              |requested| == |plugins| && forall i :: 0 <= i < |plugins| ==> requested[i] == PluginUrl(baseUrl, plugins[i])
    ensures |plugins| > 0 && |outcomes| < |plugins| ==> s == Pending
    ensures |plugins| > 0 && |outcomes| == |plugins| ==>
              (s == Resolved <==> forall i :: 0 <= i < |outcomes| ==> outcomes[i])
    ensures |plugins| > 0 && |outcomes| == |plugins| && !(forall i :: 0 <= i < |outcomes| ==> outcomes[i]) ==>
              s == Rejected(PluginsFailed(CountTrue(outcomes), |plugins|))
    ensures s.Rejected? ==>
              |outcomes| == |plugins| && CountTrue(outcomes) < |plugins|
              && s.error == PluginsFailed(CountTrue(outcomes), |plugins|)
  {
    requested := [];
    if |plugins| == 0 {
      return [], Resolved;
    }
    var tally := new StrictTally(|plugins|);
    for k := 0 to |plugins|
      invariant |requested| == k
      invariant forall i :: 0 <= i < k ==> requested[i] == PluginUrl(baseUrl, plugins[i])
    {
      requested := requested + [PluginUrl(baseUrl, plugins[k])];
    }
    s := Pending;
    var i := 0;
    while i < |outcomes|
      invariant 0 <= i <= |outcomes|
      invariant tally.total == |plugins|
      invariant tally.countTotal == i && tally.countSuccess == CountTrue(outcomes[..i])
      invariant i < |plugins| ==> s == Pending
      invariant i == |plugins| && CountTrue(outcomes[..i]) == i ==> s == Resolved
      invariant i == |plugins| && CountTrue(outcomes[..i]) != i ==>
                  s == Rejected(PluginsFailed(CountTrue(outcomes[..i]), i))
    {
      var settled := tally.Report(outcomes[i]);
      if s == Pending {
        s := settled;
      }
      i := i + 1;
      assert outcomes[..i][..i - 1] == outcomes[..i - 1];
    }
    assert outcomes[..i] == outcomes;
  }

  /** TJSプラグイン読込後: request every plugin and call back exactly once, when
      the last outcome arrives, whatever the outcomes; at once for an empty
      list. `calls` counts the callback's invocations. */
  method LoadPluginsThen(baseUrl: string, plugins: seq<string>, outcomes: seq<bool>)
    returns (requested: seq<string>, calls: nat)
    requires |outcomes| <= |plugins|
    ensures |plugins| == 0 ==> requested == [] && calls == 1
    ensures |plugins| > 0 ==>
              |requested| == |plugins| && forall i :: 0 <= i < |plugins| ==> requested[i] == PluginUrl(baseUrl, plugins[i])
    ensures |plugins| > 0 ==> calls == (if |outcomes| == |plugins| then 1 else 0)
  {
    if |plugins| == 0 {
      return [], 1;
    }
    var tally := new CallbackTally(|plugins|);
    requested := [];
    var k := 0;
    while k < |plugins|
      invariant k <= |plugins| && |requested| == k
      invariant forall i :: 0 <= i < k ==> requested[i] == PluginUrl(baseUrl, plugins[i])
    {
      requested := requested + [PluginUrl(baseUrl, plugins[k])];
      k := k + 1;
    }
    calls := 0;
    var i := 0;
    while i < |outcomes|
      invariant 0 <= i <= |outcomes|
      invariant tally.total == |plugins| && tally.count == i
      invariant calls == (if i == |plugins| then 1 else 0)
    {
      var fired := tally.Report(outcomes[i]);
      if fired {
        calls := calls + 1;
      }
      i := i + 1;
    }
  }

  /** What TJSライブラリ読込 yields: the imported module, or `true` when no
      import was needed. */
  datatype Loaded = LoadedModule(lib: Library) | AlreadyLoaded

  /** TJSライブラリ読込: import the library only when no handle is available
      (`fetched` is the import's outcome), adopting it through setThree;
      otherwise getThree, which then cannot fail. */
  method LoadLibrary(w: WeykThreeSystem, baseUrl: string, libName: string,
                     global: Option<Library>, fetched: Option<Library>)
    returns (requested: Option<string>, r: Result<Loaded>)
    modifies w`three, w.sys`threeVar
    ensures NeedsLibraryFetch(old(w.three), old(w.sys.threeVar), global) ==>
              requested == Some(LibraryUrl(baseUrl, libName))
    ensures NeedsLibraryFetch(old(w.three), old(w.sys.threeVar), global) && fetched.Some? ==>
              r == Ok(LoadedModule(fetched.value)) && w.three == fetched && w.sys.threeVar == fetched
    ensures NeedsLibraryFetch(old(w.three), old(w.sys.threeVar), global) && fetched.None? ==>
              r == Err(ImportFailed) && w.three == old(w.three) && w.sys.threeVar == old(w.sys.threeVar)
    ensures !NeedsLibraryFetch(old(w.three), old(w.sys.threeVar), global) ==>
              && requested.None? && r == Ok(AlreadyLoaded)
              && Promotion(Promote(old(w.three), old(w.sys.threeVar), global).result, w.three, w.sys.threeVar)
                 == Promote(old(w.three), old(w.sys.threeVar), global)
    ensures old(w.Valid()) ==> w.Valid()
  {
    if !w.CheckThree() && global.None? && w.sys.threeVar.None? {
      requested := Some(LibraryUrl(baseUrl, libName));
      if fetched.None? {
        return requested, Err(ImportFailed);
      }
      var _ := w.SetThree(fetched.value, global);
      r := Ok(LoadedModule(fetched.value));
    } else {
      requested := None;
      var _ := w.GetThree(global);
      r := Ok(AlreadyLoaded);
    }
  }
}
