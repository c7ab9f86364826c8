/**
 * Event projection (converter.js:174-210): every event of every function
 * becomes one resource descriptor, classified by its first truthy key among
 * `http` and `schedule`, or else by its first key; descriptors are grouped by
 * resource path. This module holds the descriptor of one event and the
 * reference definitions of the grouped table; module ResourceTable holds the
 * loops that build it.
 */
module Projection {
  import opened Values
  import opened Casing
  import CaseProperties

  // ---------------------------------------------------------------------------
  // The input document

  /** One entry of a function's `events` list: an object with its keys in declaration order. */
  datatype Event = Event(fields: seq<(string, Json)>)

  /** A function definition; `events` is None when the property is missing or falsy. */
  datatype FunctionDef = FunctionDef(events: Option<seq<Event>>)

  /**
   * The parts of the parsed document the projection reads: `service`,
   * `provider.runtime`, the root-level `iamRoleStatements` (read at
   * converter.js:200) and `functions`, in key order.
   */
  datatype ServerlessSpec = ServerlessSpec(
    service: string,
    runtime: Option<Json>,
    iamRoleStatements: Option<Json>,
    functions: seq<(string, FunctionDef)>)

  /** `http.path` or `http.method`: present as a string, or the source throws. */
  predicate HasStringField(v: Json, key: string)
  {
    v.Obj? && Get(v.fields, key).Some? && Get(v.fields, key).value.Str?
  }

  function StringField(v: Json, key: string): string
    requires HasStringField(v, key)
  {
    Get(v.fields, key).value.s
  }

  /**
   * An event the source processes without throwing: a non-empty object (the
   * catch-all reads its first key) whose truthy `http` carries string `path` and
   * `method`. Keys are distinct and none is an array index, so that the first
   * key Object.keys reports is the first key declared; the same holds of the
   * lower-cased HTTP path, which becomes a key of the resource table and must
   * not name a property every object inherits.
   */
  predicate WellFormedEvent(e: Event)
  {
    && e.fields != []
    && DistinctKeys(e.fields)
    && (forall i :: 0 <= i < |e.fields| ==> !IsIndexKey(e.fields[i].0))
    && (Truthy(Get(e.fields, "http")) ==>
          var http := Get(e.fields, "http").value;
          && HasStringField(http, "path")
          && HasStringField(http, "method")
          && PlainTableKey(LowerAll(StringField(http, "path"))))
  }

  /**
   * A key of the resource table that Object.keys lists in insertion order and
   * that an empty object does not already answer: `ResourcePaths['constructor']`
   * and `ResourcePaths['__proto__']` are truthy before anything is stored.
   */
  predicate PlainTableKey(p: string)
  {
    !IsIndexKey(p) && p != "constructor" && p != "__proto__"
  }

  predicate EventsWellFormed(fs: seq<(string, FunctionDef)>)
  {
    forall i :: 0 <= i < |fs| && fs[i].1.events.Some? ==>
      forall e :: e in fs[i].1.events.value ==> WellFormedEvent(e)
  }

  /** A document the projection runs on: function names are distinct, not array indices, and every event is well formed. */
  predicate ValidSpec(spec: ServerlessSpec)
  {
    && EventsWellFormed(spec.functions)
    && (forall i, j :: 0 <= i < j < |spec.functions| ==> spec.functions[i].0 != spec.functions[j].0)
    && (forall i :: 0 <= i < |spec.functions| ==> !IsIndexKey(spec.functions[i].0))
  }

  // ---------------------------------------------------------------------------
  // One descriptor

  /**
   * The `service` object built for one event. `servicePublic`, `serviceSchedule`
   * and `serviceTag` are None where the source never assigns them or assigns
   * `undefined`; `first`, `last` and `hasMore` stand for the `-first`, `-last`
   * and `hasMore` properties that convertArray adds later.
   */
  datatype Descriptor = Descriptor(
    resourceType: string,
    servicePublic: Option<bool>,
    serviceTemplate: string,
    resourcePath: string,
    resourceMethod: string,
    serviceSchedule: Option<Json>,
    serviceTag: Option<Json>,
    serviceName: string,
    servicePolicy: Option<Json>,
    serviceRuntime: Json,
    operationName: string,
    description: string,
    first: Option<bool>,
    last: Option<bool>,
    hasMore: Option<bool>)

  const DEFAULT_RUNTIME := "nodejs12.x"


  /** The fields every descriptor of function `k` shares (converter.js:197-203). */
  function Common(spec: ServerlessSpec, k: string): (d: Descriptor)
    ensures d.serviceName == spec.service && d.servicePolicy == spec.iamRoleStatements
    ensures d.serviceTemplate == "flatted"
    ensures d.serviceRuntime == if Truthy(spec.runtime) then spec.runtime.value else Str(DEFAULT_RUNTIME)
    ensures d.operationName == ToCamelCase(k) && d.description == ToTextSpace(d.operationName)
    ensures forall c :: c in d.operationName ==> !IsSpace(c) && c != '-'
    ensures d.servicePublic == None && d.serviceSchedule == None && d.serviceTag == None
    ensures d.first == None && d.last == None && d.hasMore == None
  {
    var operation := ToCamelCase(k);
    CaseProperties.CamelHasNoSeparators(k);
    var runtime := if Truthy(spec.runtime) then spec.runtime.value else Str(DEFAULT_RUNTIME);
    Descriptor("", None, "flatted", "", "", None, None,
               spec.service, spec.iamRoleStatements, runtime,
               operation, ToTextSpace(operation), None, None, None)
  }

  /** The descriptor of event `evt` of function `k` (converter.js:178-203). */
  function Describe(spec: ServerlessSpec, k: string, evt: Event): (d: Descriptor)
    requires WellFormedEvent(evt)
    // the resource type tells HTTP routes from every other event
    ensures d.resourceType == "x-api" <==> Truthy(Get(evt.fields, "http"))
    ensures d.resourceType == "x-api" || d.resourceType == "x-event"
    // an HTTP event: public, path and method lower-cased from `http`
    ensures Truthy(Get(evt.fields, "http")) ==>
              var http := Get(evt.fields, "http").value;
              && d.servicePublic == Some(true)
              && d.resourcePath == LowerAll(StringField(http, "path"))
              && d.resourceMethod == LowerAll(StringField(http, "method"))
              && d.serviceSchedule == None && d.serviceTag == None
    // any other event: PATCH on a path under the function's name, with the raw `schedule` value
    ensures !Truthy(Get(evt.fields, "http")) ==>
              && d.servicePublic == None
              && d.resourceMethod == "patch"
              && d.serviceSchedule == Get(evt.fields, "schedule")
    // a truthy `schedule` gives the path `<k>/schedule`; otherwise the first key names the path and the tag
    ensures !Truthy(Get(evt.fields, "http")) && Truthy(Get(evt.fields, "schedule")) ==>
              d.resourcePath == k + "/schedule" && d.serviceTag == None
    ensures !Truthy(Get(evt.fields, "http")) && !Truthy(Get(evt.fields, "schedule")) ==>
              && d.resourcePath == k + "/" + ToSnake(ToPascalCase(evt.fields[0].0))
              && d.serviceTag == Some(evt.fields[0].1)
    // every other field is shared by all events of the function
    ensures d.(resourceType := "", servicePublic := None, resourcePath := "", resourceMethod := "",
               serviceSchedule := None, serviceTag := None) == Common(spec, k)
  {
    var http := Get(evt.fields, "http");
    var schedule := Get(evt.fields, "schedule");
    var common := Common(spec, k);
    if Truthy(http) then
      common.(resourceType := "x-api", servicePublic := Some(true),
              resourcePath := LowerAll(StringField(http.value, "path")),
              resourceMethod := LowerAll(StringField(http.value, "method")))
    else if Truthy(schedule) then
      common.(resourceType := "x-event", resourceMethod := "patch", serviceSchedule := schedule,
              resourcePath := k + "/schedule")
    else
      var key := evt.fields[0].0;
      common.(resourceType := "x-event", resourceMethod := "patch", serviceSchedule := schedule,
              resourcePath := k + "/" + ToSnake(ToPascalCase(key)), serviceTag := Get(evt.fields, key))
  }

  // ---------------------------------------------------------------------------
  // All descriptors, in function and event declaration order

  /** `events.map(...)`: the descriptors of one function's events, in event order. */
  function FunctionDescriptors(spec: ServerlessSpec, k: string, events: seq<Event>): (r: seq<Descriptor>)
    requires forall e :: e in events ==> WellFormedEvent(e)
    ensures |r| == |events|
  {
    if events == [] then []
    else FunctionDescriptors(spec, k, events[..|events| - 1]) + [Describe(spec, k, events[|events| - 1])]
  }

  /** What one function adds to the table: nothing when it has no events. */
  function Contribution(spec: ServerlessSpec, f: (string, FunctionDef)): seq<Descriptor>
    requires f.1.events.Some? ==> forall e :: e in f.1.events.value ==> WellFormedEvent(e)
  {
    if f.1.events.Some? then FunctionDescriptors(spec, f.0, f.1.events.value) else []
  }

  function EventCount(fs: seq<(string, FunctionDef)>): nat
  {
    if fs == [] then 0
    else
      var f := fs[|fs| - 1];
      EventCount(fs[..|fs| - 1]) + (if f.1.events.Some? then |f.1.events.value| else 0)
  }

  /** Every descriptor the projection builds, in the order it builds them: one per event. */
  function AllDescriptors(spec: ServerlessSpec, fs: seq<(string, FunctionDef)>): (r: seq<Descriptor>)
    requires EventsWellFormed(fs)
    ensures |r| == EventCount(fs)
  {
    if fs == [] then []
    else
      assert EventsWellFormed(fs[..|fs| - 1]) by {
        forall i | 0 <= i < |fs| - 1 ensures fs[..|fs| - 1][i] == fs[i] { }
      }
      AllDescriptors(spec, fs[..|fs| - 1]) + Contribution(spec, fs[|fs| - 1])
  }

  // ---------------------------------------------------------------------------
  // The grouped table, by reference definitions

  /** The distinct resource paths of `ds`, in the order they are first seen. */
  function Paths(ds: seq<Descriptor>): (ps: seq<string>)
    ensures Distinct(ps)
    ensures forall p :: p in ps <==> exists i :: 0 <= i < |ds| && ds[i].resourcePath == p
  {
    if ds == [] then []
    else
      var prev := Paths(ds[..|ds| - 1]);
      var p := ds[|ds| - 1].resourcePath;
      if p in prev then prev else prev + [p]
  }

  /** The descriptors of `ds` on path `p`, in their order in `ds`. */
  function Group(ds: seq<Descriptor>, p: string): (g: seq<Descriptor>)
    ensures forall d :: d in g ==> d.resourcePath == p && d in ds
    ensures g == [] <==> forall i :: 0 <= i < |ds| ==> ds[i].resourcePath != p
  {
    if ds == [] then []
    else
      var prefix := ds[..|ds| - 1];
      var d := ds[|ds| - 1];
      assert forall e :: e in prefix ==> e in ds;
      Group(prefix, p) + (if d.resourcePath == p then [d] else [])
  }

  /** The lists of paths `ps`, one after the other: what the flattened table holds. */
  function Flat(ds: seq<Descriptor>, ps: seq<string>): seq<Descriptor>
  {
    if ps == [] then [] else Group(ds, ps[0]) + Flat(ds, ps[1..])
  }

  // ---------------------------------------------------------------------------
  // Properties of the table

  /** A new descriptor on a path outside `ps` leaves the lists of `ps` as they were. */
  lemma {:induction false} FlatAppendElsewhere(ds: seq<Descriptor>, d: Descriptor, ps: seq<string>)
    requires d.resourcePath !in ps
    ensures Flat(ds + [d], ps) == Flat(ds, ps)
  {
    if ps != [] {
      FlatAppendElsewhere(ds, d, ps[1..]);
      GroupAppend(ds, d, ps[0]);
    }
  }

  /** A new descriptor on a path of `ps` joins exactly the list of that path. */
  lemma {:induction false} FlatAppendDescriptor(ds: seq<Descriptor>, d: Descriptor, ps: seq<string>)
    requires Distinct(ps) && d.resourcePath in ps
    ensures multiset(Flat(ds + [d], ps)) == multiset(Flat(ds, ps)) + multiset{d}
  {
    if d.resourcePath == ps[0] {
      FlatAppendFirst(ds, d, ps);
    } else {
      DistinctTail(ps);
      FlatAppendDescriptor(ds, d, ps[1..]);
      FlatAppendLater(ds, d, ps);
      var g := Group(ds, ps[0]);
      assert multiset(g + Flat(ds + [d], ps[1..])) == multiset(g) + multiset(Flat(ds + [d], ps[1..]));
      assert multiset(g + Flat(ds, ps[1..])) == multiset(g) + multiset(Flat(ds, ps[1..]));
    }
  }

  lemma FlatAppendFirst(ds: seq<Descriptor>, d: Descriptor, ps: seq<string>)
    requires ps != [] && Distinct(ps) && d.resourcePath == ps[0]
    ensures multiset(Flat(ds + [d], ps)) == multiset(Flat(ds, ps)) + multiset{d}
  {
    DistinctTail(ps);
    FlatAppendElsewhere(ds, d, ps[1..]);
    GroupAppend(ds, d, ps[0]);
    var g, f := Group(ds, ps[0]), Flat(ds, ps[1..]);
    assert Flat(ds + [d], ps) == g + [d] + f;
    assert multiset(g + [d] + f) == multiset(g + f) + multiset{d};
  }

  lemma FlatAppendLater(ds: seq<Descriptor>, d: Descriptor, ps: seq<string>)
    requires ps != [] && d.resourcePath != ps[0]
    ensures Flat(ds + [d], ps) == Group(ds, ps[0]) + Flat(ds + [d], ps[1..])
  {
    GroupAppend(ds, d, ps[0]);
  }

  lemma DistinctTail(ps: seq<string>)
    requires ps != [] && Distinct(ps)
    ensures Distinct(ps[1..]) && ps[0] !in ps[1..]
  {
    forall i, j | 0 <= i < j < |ps| - 1 ensures ps[1..][i] != ps[1..][j] {
      assert ps[1..][i] == ps[i + 1] && ps[1..][j] == ps[j + 1];
    }
  }

  lemma GroupAppend(ds: seq<Descriptor>, d: Descriptor, p: string)
    ensures Group(ds + [d], p) == Group(ds, p) + (if d.resourcePath == p then [d] else [])
  {
    assert (ds + [d])[..|ds|] == ds;
  }

  /** One more path appends its list. */
  lemma {:induction false} FlatAppendPath(ds: seq<Descriptor>, ps: seq<string>, p: string)
    ensures Flat(ds, ps + [p]) == Flat(ds, ps) + Group(ds, p)
  {
    if ps != [] {
      assert (ps + [p])[1..] == ps[1..] + [p];
      FlatAppendPath(ds, ps[1..], p);
    } else {
      assert [p][1..] == [];
    }
  }

  /** The lists of the table, taken together, hold every descriptor exactly once: they partition `ds`. */
  lemma {:induction false} EveryDescriptorGrouped(ds: seq<Descriptor>)
    ensures multiset(Flat(ds, Paths(ds))) == multiset(ds)
  {
    if ds != [] {
      var prefix := ds[..|ds| - 1];
      var d := ds[|ds| - 1];
      assert ds == prefix + [d];
      assert multiset(ds) == multiset(prefix) + multiset{d};
      EveryDescriptorGrouped(prefix);
      var prev := Paths(prefix);
      if d.resourcePath in prev {
        assert Paths(ds) == prev;
        FlatAppendDescriptor(prefix, d, prev);
      } else {
        FlatAppendElsewhere(prefix, d, prev);
        NewPathGrouped(ds, prefix, d, prev);
      }
    }
  }

  /** A descriptor on a path not seen before: its list is added last and holds just it. */
  lemma NewPathGrouped(ds: seq<Descriptor>, prefix: seq<Descriptor>, d: Descriptor, prev: seq<string>)
    requires ds != [] && prefix == ds[..|ds| - 1] && d == ds[|ds| - 1] && ds == prefix + [d]
    requires prev == Paths(prefix) && d.resourcePath !in prev
    ensures multiset(Flat(ds, Paths(ds))) == multiset(Flat(ds, prev)) + multiset{d}
  {
    assert Paths(ds) == prev + [d.resourcePath];
    FlatAppendPath(ds, prev, d.resourcePath);
    assert Group(prefix, d.resourcePath) == [];
    assert Group(ds, d.resourcePath) == [d];
  }

  /** The lists of the filled table hold each descriptor once, and as many as the functions declare events. */
  lemma TableHoldsEveryEvent(spec: ServerlessSpec)
    requires ValidSpec(spec)
    ensures var ds := AllDescriptors(spec, spec.functions);
            && multiset(Flat(ds, Paths(ds))) == multiset(ds)
            && |Flat(ds, Paths(ds))| == EventCount(spec.functions)
  {
    var ds := AllDescriptors(spec, spec.functions);
    EveryDescriptorGrouped(ds);
    assert |multiset(Flat(ds, Paths(ds)))| == |multiset(ds)|;
  }
}
