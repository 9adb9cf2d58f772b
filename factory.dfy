/** Engine construction and discovery (src/engines/factory.ts). */
module EngineFactory {
  import opened Wrappers
  import opened StorageErrors
  import opened WebStorage
  import opened MemoryEngine

  /**
   * The IndexedDB engine, reduced to its name and its availability test: whether the browser
   * exposes `indexedDB`. Its asynchronous operations are not part of this model.
   */
  class IndexedDBEngine {
    const name: string
    const present: bool

    constructor(present0: bool)
      ensures name == "indexedDB" && present == present0
    {
      name := "indexedDB";
      present := present0;
    }

    method IsAvailable() returns (r: bool)
      ensures r == present
    {
      r := present;
    }
  }

  /** An `IStorageEngine` object of one of the four kinds. */
  datatype Engine =
    | Web(web: WebStorageEngine)
    | Idb(idb: IndexedDBEngine)
    | Mem(mem: MemoryStorageEngine)
  {
    function Name(): string {
      match this
      case Web(w) => w.name
      case Idb(i) => i.name
      case Mem(m) => m.name
    }

    function Object(): object {
      match this
      case Web(w) => w
      case Idb(i) => i
      case Mem(m) => m
    }
  }

  /** What the engines can reach in the page: the two Storage objects (null when absent) and whether `indexedDB` exists. */
  datatype Browser = Browser(local: WebStorageArea?, session: WebStorageArea?, indexedDB: bool) {
    ghost predicate Valid()
      reads Areas()
    {
      (local != null ==> local.Valid()) && (session != null ==> session.Valid())
    }

    function Areas(): set<object> {
      (if local != null then {local} else {}) + (if session != null then {session} else {})
    }
  }

  /** The four engine names `createEngine` knows. */
  const AllEngines: seq<string> := ["localStorage", "sessionStorage", "indexedDB", "memory"]

  /** Whether a Storage object passes the availability probe: both probe calls succeed. */
  predicate ProbePasses(area: WebStorageArea?) {
    area != null && area.fault(SetCall(TestKey, "test")).None? && area.fault(RemoveCall(TestKey)).None?
  }

  /** Whether `createEngine(t).isAvailable()` answers true in this browser. */
  predicate Available(b: Browser, t: string) {
    if t == "localStorage" then ProbePasses(b.local)
    else if t == "sessionStorage" then ProbePasses(b.session)
    else if t == "indexedDB" then b.indexedDB
    else t == "memory"
  }

  /** The error `createEngine` throws for a name it does not know. */
  function UnknownEngine(t: string): (e: StorageError)
    ensures e.Is(ErrorCode.InvalidKey) && e.originalError == None
  {
    StorageError("Unknown storage engine: " + t, ErrorCode.InvalidKey, None)
  }

  /** `createEngine(type)`: a new engine of that name, or `INVALID_KEY` for an unknown name. */
  method CreateEngine(b: Browser, t: string) returns (r: Result<Engine, StorageError>)
    ensures r.Success? <==> t in AllEngines
    ensures r.Success? ==> r.value.Name() == t && fresh(r.value.Object())
    ensures r.Success? && r.value.Web? ==> r.value.web.area == (if t == "localStorage" then b.local else b.session)
    ensures r.Success? && r.value.Mem? ==> r.value.mem.Valid()
    ensures r.Success? ==> (r.value.Web? <==> t in {"localStorage", "sessionStorage"})
    ensures r.Success? ==> (r.value.Idb? <==> t == "indexedDB") && (r.value.Idb? ==> r.value.idb.present == b.indexedDB)
    ensures r.Failure? ==> r.error == UnknownEngine(t)
  {
    if t == "localStorage" {
      var e := new WebStorageEngine.Local(b.local);
      r := Success(Web(e));
    } else if t == "sessionStorage" {
      var e := new WebStorageEngine.Session(b.session);
      r := Success(Web(e));
    } else if t == "indexedDB" {
      var e := new IndexedDBEngine(b.indexedDB);
      r := Success(Idb(e));
    } else if t == "memory" {
      var e := new MemoryStorageEngine();
      r := Success(Mem(e));
    } else {
      r := Failure(UnknownEngine(t));
    }
  }

  /** `engine.isAvailable()` for an engine of any kind. */
  method IsAvailable(e: Engine) returns (r: bool)
    requires e.Web? ==> e.web.Valid()
    modifies if e.Web? && e.web.area != null then {e.web.area} else {}
    ensures e.Web? ==> e.web.Valid() && r == ProbePasses(e.web.area)
    ensures e.Idb? ==> r == e.idb.present
    ensures e.Mem? ==> r
  {
    match e
    case Web(w) => r := w.IsAvailable();
    case Idb(i) => r := i.IsAvailable();
    case Mem(m) => r := m.IsAvailable();
  }

  /** `createEngine(t)` followed by `isAvailable()` on the new engine, as both discovery functions do. */
  method CreateAndProbe(b: Browser, t: string) returns (c: Result<Engine, StorageError>, ok: bool)
    requires b.Valid()
    modifies b.Areas()
    ensures b.Valid()
    ensures c.Failure? <==> t !in AllEngines
    ensures c.Failure? ==> c.error == UnknownEngine(t) && !ok
    ensures c.Success? ==> ok == Available(b, t) && c.value.Name() == t && fresh(c.value.Object())
  {
    c := CreateEngine(b, t);
    if c.Failure? {
      return c, false;
    }
    ok := IsAvailable(c.value);
  }

  /** The name `getAvailableEngine(engines)` settles on: the first available one, or the first unknown one's error. */
  function FirstAvailable(b: Browser, engines: seq<string>): (r: Result<Option<string>, StorageError>)
    ensures r.Success? && r.value.Some? ==> r.value.value in engines && Available(b, r.value.value)
    ensures r == Success(None) <==> forall t :: t in engines ==> t in AllEngines && !Available(b, t)
  {
    if engines == [] then Success(None)
    else if engines[0] !in AllEngines then Failure(UnknownEngine(engines[0]))
    else if Available(b, engines[0]) then Success(Some(engines[0]))
    else
      var r := FirstAvailable(b, engines[1..]);
      assert forall t :: t in engines <==> t == engines[0] || t in engines[1..];
      r
  }

  /**
   * `getAvailableEngine(engines)`: creates and probes engines in list order and returns the first
   * available one; null when none is; an unknown name reached first makes it throw.
   */
  method GetAvailableEngine(b: Browser, engines: seq<string>) returns (r: Result<Option<Engine>, StorageError>)
    requires b.Valid()
    modifies b.Areas()
    ensures b.Valid()
    ensures FirstAvailable(b, engines).Failure? ==> r == Failure(FirstAvailable(b, engines).error)
    ensures FirstAvailable(b, engines) == Success(None) ==> r == Success(None)
    ensures FirstAvailable(b, engines).Success? && FirstAvailable(b, engines).value.Some? ==>
              r.Success? && r.value.Some? && r.value.value.Name() == FirstAvailable(b, engines).value.value &&
              fresh(r.value.value.Object())
  {
    for i := 0 to |engines|
      invariant b.Valid()
      invariant FirstAvailable(b, engines) == FirstAvailable(b, engines[i..])
    {
      assert engines[i..][1..] == engines[i + 1..];
      var c, ok := CreateAndProbe(b, engines[i]);
      if c.Failure? {
        return Failure(c.error);
      }
      if ok {
        return Success(Some(c.value));
      }
    }
    r := Success(None);
  }

  /** The names of `names` that are available, in order. */
  function AvailableAmong(b: Browser, names: seq<string>): (r: seq<string>)
    ensures forall t :: t in r <==> t in names && Available(b, t)
  {
    if names == [] then []
    else (if Available(b, names[0]) then [names[0]] else []) + AvailableAmong(b, names[1..])
  }

  /** Creates and probes an engine for each name of `names`, keeping the available ones in order. */
  method FilterAvailable(b: Browser, names: seq<string>) returns (r: seq<string>)
    requires b.Valid() && forall t :: t in names ==> t in AllEngines
    modifies b.Areas()
    ensures b.Valid()
    ensures r == AvailableAmong(b, names)
  {
    r := [];
    for i := 0 to |names|
      invariant b.Valid()
      invariant AvailableAmong(b, names) == r + AvailableAmong(b, names[i..])
    {
      ghost var r0 := r;
      var c, ok := CreateAndProbe(b, names[i]);
      if ok {
        r := r + [names[i]];
      }
      assert r0 + AvailableAmong(b, names[i..]) == r + AvailableAmong(b, names[i + 1..]) by {
        assert names[i..][1..] == names[i + 1..];
        ghost var rest := AvailableAmong(b, names[i + 1..]);
        ghost var head := if ok then [names[i]] else [];
        assert AvailableAmong(b, names[i..]) == head + rest;
        assert r == r0 + head;
        SeqAssoc(r0, head, rest);
      }
    }
    assert names[|names|..] == [];
    assert r + [] == r;
  }

  lemma SeqAssoc(a: seq<string>, b: seq<string>, c: seq<string>)
    ensures a + (b + c) == (a + b) + c
  {
  }

  /** `getAvailableEngines()`: the available engine names in the fixed order; `memory` is always among them. */
  method GetAvailableEngines(b: Browser) returns (r: seq<string>)
    requires b.Valid()
    modifies b.Areas()
    ensures b.Valid()
    ensures r == AvailableAmong(b, AllEngines)
    ensures "memory" in r
  {
    r := FilterAvailable(b, AllEngines);
  }

  /** Whether the test write, read and removal on a Storage object all succeed. */
  predicate RoundTripPasses(area: WebStorageArea?) {
    area != null &&
    area.fault(SetCall(TestKey, "test")).None? &&
    area.fault(GetCall(TestKey)).None? &&
    area.fault(RemoveCall(TestKey)).None?
  }

  /**
   * `testEngine(engine)`: writes `'test'` under `__storage_test__`, reads it back and removes it;
   * true iff no step throws and the value read back is `'test'`.
   */
  method TestEngine(e: Engine) returns (r: bool)
    requires !e.Idb?
    requires e.Web? ==> e.web.Valid()
    requires e.Mem? ==> e.mem.Valid()
    modifies if e.Web? && e.web.area != null then {e.web.area} else {}, if e.Mem? then {e.mem} else {}
    ensures e.Web? ==> e.web.Valid() && r == RoundTripPasses(e.web.area)
    ensures e.Web? && r ==> e.web.area.data == ProbeEffect(old(e.web.area.data))
    ensures e.Mem? ==> e.mem.Valid() && r && e.mem.store == ProbeEffect(old(e.mem.store))
  {
    match e
    case Web(w) =>
      var s := w.SetItem(TestKey, "test");
      if s.Fail? {
        return false;
      }
      var g := w.GetItem(TestKey);
      if g.Failure? {
        return false;
      }
      var d := w.RemoveItem(TestKey);
      if d.Fail? {
        return false;
      }
      r := g.value == Some("test");
    case Mem(m) =>
      m.SetItem(TestKey, "test");
      var g := m.GetItem(TestKey);
      m.RemoveItem(TestKey);
      r := g == Some("test");
  }
}
