/**
 * The resource table: the projection loop of converter.js:174-210 that fills
 * `ResourcePaths`, convertArray (converter.js:66-79), which flags every
 * element of a list with its position, and convertResources
 * (converter.js:81-90), which flattens the table into a list of entries.
 */
module ResourceTable {
  import opened Values
  import opened Projection
  import opened Casing

  /** A JavaScript array of descriptors together with the `isEmpty` property convertArray sets on it. */
  class ResourceGroup {
    var items: seq<Descriptor>
    var isEmpty: Option<bool>

    /** `[]` */
    constructor ()
      ensures items == [] && isEmpty == None
    {
      items := [];
      isEmpty := None;
    }

    /** `push` */
    method Push(d: Descriptor)
      modifies this
      ensures items == old(items) + [d] && isEmpty == old(isEmpty)
    {
      items := items + [d];
    }
  }

  /** `{ResourcePath, ResourceData}` */
  datatype ResourceEntry = ResourceEntry(resourcePath: string, resourceData: ResourceGroup)

  // ---------------------------------------------------------------------------
  // Positional flags

  /** Element `i` of a list of `n` with its `-first`, `-last` and `hasMore` flags set. */
  function Flagged(d: Descriptor, i: nat, n: nat): Descriptor
  {
    d.(first := Some(i == 0), last := Some(i == n - 1), hasMore := Some(i < n - 1))
  }

  /** The items of a list once convertArray has flagged them. */
  function Decorated(items: seq<Descriptor>): (r: seq<Descriptor>)
    ensures |r| == |items|
    ensures forall i :: 0 <= i < |r| ==>
              r[i].first == Some(i == 0) && r[i].last == Some(i == |r| - 1) && r[i].hasMore == Some(i < |r| - 1)
    // every other field of every element is kept
    ensures forall i :: 0 <= i < |r| ==>
              r[i].(first := items[i].first, last := items[i].last, hasMore := items[i].hasMore) == items[i]
  {
    seq(|items|, i requires 0 <= i < |items| => Flagged(items[i], i, |items|))
  }

  /** `hasMore` is the negation of `-last`, and exactly the first element is `-first`. */
  lemma DecoratedFlagsAgree(items: seq<Descriptor>)
    ensures forall i :: 0 <= i < |items| ==>
              Decorated(items)[i].hasMore == Some(!Decorated(items)[i].last.value)
    ensures forall i :: 0 <= i < |items| ==> (Decorated(items)[i].first == Some(true) <==> i == 0)
  {
  }

  /**
   * `convertArray(arr)`: a missing list is replaced by a new empty one; a
   * non-empty list has its elements flagged in place and `isEmpty` false, an
   * empty one `isEmpty` true. The list itself is returned.
   */
  method ConvertArray(arr: ResourceGroup?) returns (r: ResourceGroup)
    modifies arr
    ensures arr == null ==> fresh(r) && r.items == [] && r.isEmpty == Some(true)
    ensures arr != null ==> r == arr && r.items == Decorated(old(arr.items))
    ensures arr != null ==> r.isEmpty == Some(old(arr.items) == [])
  {
    if arr == null {
      r := new ResourceGroup();
    } else {
      r := arr;
    }
    if |r.items| > 0 {
      r.isEmpty := Some(false);
      var n := |r.items|;
      ghost var original := r.items;
      var i := 0;
      while i < n
        invariant 0 <= i <= n && |r.items| == n
        invariant forall j :: 0 <= j < i ==> r.items[j] == Flagged(original[j], j, n)
        invariant forall j :: i <= j < n ==> r.items[j] == original[j]
        invariant r.isEmpty == Some(false)
      {
        r.items := r.items[i := r.items[i].(first := Some(i == 0))];
        r.items := r.items[i := r.items[i].(last := Some(i == n - 1))];
        r.items := r.items[i := r.items[i].(hasMore := Some(i < n - 1))];
        i := i + 1;
      }
      assert r.items == Decorated(original);
    } else {
      r.isEmpty := Some(true);
    }
  }

  // ---------------------------------------------------------------------------
  // The table

  /**
   * `keys` lists the table's keys in insertion order, each once, and no two
   * keys share a list.
   */
  ghost predicate TableShape(keys: seq<string>, table: map<string, ResourceGroup>)
  {
    && Distinct(keys)
    && (forall p :: p in table <==> p in keys)
    && (forall p, q :: p in table && q in table && p != q ==> table[p] != table[q])
  }

  /** The table holds, under each path of `ds` in first-seen order, the descriptors of `ds` on that path. */
  ghost predicate TableHolds(keys: seq<string>, table: map<string, ResourceGroup>, ds: seq<Descriptor>)
    reads table.Values
  {
    && TableShape(keys, table)
    && keys == Paths(ds)
    && (forall p :: p in table ==> table[p].items == Group(ds, p) && table[p].isEmpty == None)
  }

  lemma EventsWellFormedPrefix(fs: seq<(string, FunctionDef)>, i: nat)
    requires EventsWellFormed(fs) && i <= |fs|
    ensures EventsWellFormed(fs[..i])
  {
    assert forall j :: 0 <= j < i ==> fs[..i][j] == fs[j];
  }

  /** The descriptors of the first `i` functions. */
  ghost function DescriptorsBefore(spec: ServerlessSpec, i: nat): seq<Descriptor>
    requires ValidSpec(spec) && i <= |spec.functions|
  {
    EventsWellFormedPrefix(spec.functions, i);
    AllDescriptors(spec, spec.functions[..i])
  }

  lemma DescriptorsBeforeStep(spec: ServerlessSpec, i: nat)
    requires ValidSpec(spec) && i < |spec.functions|
    ensures var (k, f) := spec.functions[i];
            f.events.Some? ==>
              && (forall e :: e in f.events.value ==> WellFormedEvent(e))
              && DescriptorsBefore(spec, i + 1)
                 == DescriptorsBefore(spec, i) + FunctionDescriptors(spec, k, f.events.value)
    ensures spec.functions[i].1.events.None? ==> DescriptorsBefore(spec, i + 1) == DescriptorsBefore(spec, i)
  {
    var f := spec.functions[i];
    AllDescriptorsStep(spec, spec.functions, i);
    if f.1.events.None? {
      var before := AllDescriptors(spec, spec.functions[..i]);
      assert before + [] == before;
    }
  }

  /** AllDescriptors over one more function adds that function's contribution. */
  lemma AllDescriptorsStep(spec: ServerlessSpec, fs: seq<(string, FunctionDef)>, i: nat)
    requires EventsWellFormed(fs) && i < |fs|
    ensures EventsWellFormed(fs[..i]) && EventsWellFormed(fs[..i + 1])
    ensures AllDescriptors(spec, fs[..i + 1]) == AllDescriptors(spec, fs[..i]) + Contribution(spec, fs[i])
  {
    EventsWellFormedPrefix(fs, i);
    EventsWellFormedPrefix(fs, i + 1);
    var pre := fs[..i + 1];
    assert pre[..|pre| - 1] == fs[..i] && pre[|pre| - 1] == fs[i];
  }

  lemma FunctionDescriptorsStep(spec: ServerlessSpec, k: string, events: seq<Event>, j: nat, ds: seq<Descriptor>)
    requires forall e :: e in events ==> WellFormedEvent(e)
    requires j < |events|
    ensures ds + FunctionDescriptors(spec, k, events[..j + 1])
            == (ds + FunctionDescriptors(spec, k, events[..j])) + [Describe(spec, k, events[j])]
  {
    assert events[..j + 1][..j] == events[..j];
  }

  /** Appending one descriptor to the list of its path keeps the table in step with the descriptors. */
  lemma PathsStep(ds: seq<Descriptor>, d: Descriptor)
    ensures Paths(ds + [d]) == if d.resourcePath in Paths(ds) then Paths(ds) else Paths(ds) + [d.resourcePath]
  {
    assert (ds + [d])[..|ds|] == ds;
  }

  lemma GroupStep(ds: seq<Descriptor>, d: Descriptor)
    ensures Group(ds + [d], d.resourcePath) == Group(ds, d.resourcePath) + [d]
    ensures forall p :: p != d.resourcePath ==> Group(ds + [d], p) == Group(ds, p)
  {
    assert (ds + [d])[..|ds|] == ds;
  }

  /**
   * `if (!ResourcePaths[path]) ResourcePaths[path] = []; ResourcePaths[path].push(service)`:
   * the descriptor joins the list of its path, which is created on first sight.
   */
  method Record(d: Descriptor, keys: seq<string>, table: map<string, ResourceGroup>, ghost ds: seq<Descriptor>)
    returns (keys': seq<string>, table': map<string, ResourceGroup>)
    requires TableHolds(keys, table, ds)
    modifies table.Values
    ensures TableHolds(keys', table', ds + [d])
    ensures forall p :: p in table' ==> (p in table && table'[p] == table[p]) || fresh(table'[p])
  {
    if d.resourcePath !in table {
      keys', table' := StartList(d, keys, table, ds);
    } else {
      keys', table' := keys, table;
      AppendTo(d, keys, table, ds);
    }
  }

  /** A path seen for the first time gets a new list holding its descriptor, and joins the keys. */
  method StartList(d: Descriptor, keys: seq<string>, table: map<string, ResourceGroup>, ghost ds: seq<Descriptor>)
    returns (keys': seq<string>, table': map<string, ResourceGroup>)
    requires TableHolds(keys, table, ds) && d.resourcePath !in table
    ensures TableHolds(keys', table', ds + [d])
    ensures forall p :: p in table' ==> (p in table && table'[p] == table[p]) || fresh(table'[p])
  {
    var g := new ResourceGroup();
    assert forall q :: q in table ==> table[q] != g;
    keys', table' := keys + [d.resourcePath], table[d.resourcePath := g];
    g.Push(d);
    InsertHolds(keys, table, ds, d, g);
  }

  /** A new path whose list holds just its descriptor keeps the table in step with the descriptors. */
  lemma InsertHolds(keys: seq<string>, table: map<string, ResourceGroup>, ds: seq<Descriptor>, d: Descriptor, g: ResourceGroup)
    requires TableHolds(keys, table, ds) && d.resourcePath !in table
    requires forall q :: q in table ==> table[q] != g
    requires g.items == [d] && g.isEmpty == None
    ensures TableHolds(keys + [d.resourcePath], table[d.resourcePath := g], ds + [d])
  {
    var p := d.resourcePath;
    ShapeAfterInsert(keys, table, p, g);
    assert p !in Paths(ds);
    PathsStep(ds, d);
    GroupsAfterInsert(table, ds, d, g);
  }

  lemma GroupsAfterInsert(table: map<string, ResourceGroup>, ds: seq<Descriptor>, d: Descriptor, g: ResourceGroup)
    requires forall q :: q in table ==> table[q].items == Group(ds, q) && table[q].isEmpty == None
    requires d.resourcePath !in Paths(ds)
    requires g.items == [d] && g.isEmpty == None
    ensures forall q :: q in table[d.resourcePath := g] ==>
              table[d.resourcePath := g][q].items == Group(ds + [d], q) && table[d.resourcePath := g][q].isEmpty == None
  {
    GroupStep(ds, d);
    assert Group(ds, d.resourcePath) == [];
  }

  /** A new key with a list no other key holds keeps the table's shape. */
  lemma ShapeAfterInsert(keys: seq<string>, table: map<string, ResourceGroup>, p: string, g: ResourceGroup)
    requires TableShape(keys, table) && p !in table
    requires forall q :: q in table ==> table[q] != g
    ensures TableShape(keys + [p], table[p := g])
  {
    assert p !in keys;
  }

  /** A path already in the table: its list grows by the descriptor, and no other list changes. */
  method AppendTo(d: Descriptor, keys: seq<string>, table: map<string, ResourceGroup>, ghost ds: seq<Descriptor>)
    requires TableHolds(keys, table, ds) && d.resourcePath in table
    modifies table[d.resourcePath]
    ensures TableHolds(keys, table, ds + [d])
  {
    var p := d.resourcePath;
    PathsStep(ds, d);
    GroupStep(ds, d);
    table[p].Push(d);
    forall q | q in table && q != p
      ensures table[q].items == Group(ds + [d], q) && table[q].isEmpty == None
    {
      assert table[q] != table[p];
    }
  }

  /** `o.functions[k].events.map(...)`: every event of function `k`, in order, joins the table. */
  method AddEvents(spec: ServerlessSpec, k: string, events: seq<Event>,
                   keys: seq<string>, table: map<string, ResourceGroup>, ghost ds: seq<Descriptor>)
    returns (keys': seq<string>, table': map<string, ResourceGroup>)
    requires forall e :: e in events ==> WellFormedEvent(e)
    requires TableHolds(keys, table, ds)
    modifies table.Values
    ensures TableHolds(keys', table', ds + FunctionDescriptors(spec, k, events))
    ensures forall p :: p in table' ==> (p in table && table'[p] == table[p]) || fresh(table'[p])
  {
    keys', table' := keys, table;
    var j := 0;
    ghost var done := ds;
    assert done == ds + FunctionDescriptors(spec, k, events[..j]) by {
      assert events[..j] == [];
    }
    while j < |events|
      invariant 0 <= j <= |events|
      invariant done == ds + FunctionDescriptors(spec, k, events[..j])
      invariant TableHolds(keys', table', done)
      invariant forall p :: p in table' ==> (p in table && table'[p] == table[p]) || fresh(table'[p])
    {
      var d := Describe(spec, k, events[j]);
      keys', table' := Record(d, keys', table', done);
      FunctionDescriptorsStep(spec, k, events, j, ds);
      done := done + [d];
      j := j + 1;
    }
    assert events[..j] == events;
  }

  /**
   * The projection loop of `main`: for every function with events, for every
   * event, build its descriptor and push it onto `ResourcePaths[path]`,
   * creating the list the first time the path is seen.
   */
  method BuildResourcePaths(spec: ServerlessSpec) returns (keys: seq<string>, table: map<string, ResourceGroup>)
    requires ValidSpec(spec)
    ensures TableHolds(keys, table, AllDescriptors(spec, spec.functions))
    ensures forall p :: p in table ==> fresh(table[p])
  {
    keys, table := [], map[];
    var i := 0;
    ghost var done: seq<Descriptor> := [];
    while i < |spec.functions|
      invariant 0 <= i <= |spec.functions|
      invariant done == DescriptorsBefore(spec, i)
      invariant TableHolds(keys, table, done)
      invariant forall p :: p in table ==> fresh(table[p])
    {
      DescriptorsBeforeStep(spec, i);
      var (k, f) := spec.functions[i];
      if f.events.Some? {
        keys, table := AddEvents(spec, k, f.events.value, keys, table, done);
        done := done + FunctionDescriptors(spec, k, f.events.value);
      }
      i := i + 1;
    }
    assert done == AllDescriptors(spec, spec.functions) by {
      assert spec.functions[..i] == spec.functions;
    }
  }

  /**
   * `convertResources(obj)`: one entry per key, in key order, whose data is
   * the key's list after convertArray.
   */
  method ConvertResources(keys: seq<string>, table: map<string, ResourceGroup>) returns (entries: seq<ResourceEntry>)
    requires TableShape(keys, table)
    modifies table.Values
    ensures |entries| == |keys|
    ensures forall i :: 0 <= i < |keys| ==> entries[i].resourcePath == keys[i] && entries[i].resourceData == table[keys[i]]
    ensures forall p :: p in table ==>
              table[p].items == Decorated(old(table[p].items)) && table[p].isEmpty == Some(old(table[p].items) == [])
  {
    ghost var before := map p | p in table :: table[p].items;
    entries := [];
    var i := 0;
    while i < |keys|
      invariant 0 <= i <= |keys|
      invariant |entries| == i
      invariant forall j :: 0 <= j < i ==> entries[j] == ResourceEntry(keys[j], table[keys[j]])
      invariant forall j :: 0 <= j < i ==> Converted(table[keys[j]], before[keys[j]])
      invariant forall j :: i <= j < |keys| ==> table[keys[j]].items == before[keys[j]]
    {
      assert forall j :: 0 <= j < |keys| && j != i ==> table[keys[j]] != table[keys[i]];
      var data := ConvertArray(table[keys[i]]);
      entries := entries + [ResourceEntry(keys[i], data)];
      i := i + 1;
    }
    forall p | p in table
      ensures Converted(table[p], before[p])
    {
      var j :| 0 <= j < |keys| && keys[j] == p;
    }
  }

  /** `g` is the list `items` after convertArray. */
  ghost predicate Converted(g: ResourceGroup, items: seq<Descriptor>)
    reads g
  {
    g.items == Decorated(items) && g.isEmpty == Some(items == [])
  }

  /**
   * The table of converter.js:174-210 flattened by convertResources: one entry
   * per distinct resource path, in the order paths first occur among the
   * events, each holding that path's descriptors in declaration order,
   * flagged with their positions.
   */
  method ResourceEntries(spec: ServerlessSpec) returns (entries: seq<ResourceEntry>)
    requires ValidSpec(spec)
    ensures var ds := AllDescriptors(spec, spec.functions);
            && |entries| == |Paths(ds)|
            && (forall i :: 0 <= i < |entries| ==>
                  && entries[i].resourcePath == Paths(ds)[i]
                  && entries[i].resourceData.items == Decorated(Group(ds, entries[i].resourcePath))
                  && entries[i].resourceData.isEmpty == Some(false))
    ensures forall i :: 0 <= i < |entries| ==> fresh(entries[i].resourceData)
  {
    var keys, table := BuildResourcePaths(spec);
    ghost var ds := AllDescriptors(spec, spec.functions);
    entries := ConvertResources(keys, table);
    forall i | 0 <= i < |entries|
      ensures entries[i].resourceData.isEmpty == Some(false)
    {
      assert keys[i] in Paths(ds);
    }
  }

  /**
   * Two functions, each with one HTTP event on `/items`: the table has the
   * single path `/items`, whose list holds the first function's descriptor and
   * then the second's, flagged first and last.
   */
  lemma TwoRoutesShareOnePath(spec: ServerlessSpec, f1: string, e1: Event, f2: string, e2: Event)
    requires spec.functions == [(f1, FunctionDef(Some([e1]))), (f2, FunctionDef(Some([e2])))]
    requires WellFormedEvent(e1) && Truthy(Get(e1.fields, "http"))
    requires WellFormedEvent(e2) && Truthy(Get(e2.fields, "http"))
    requires LowerAll(StringField(Get(e1.fields, "http").value, "path")) == "/items"
    requires LowerAll(StringField(Get(e2.fields, "http").value, "path")) == "/items"
    ensures EventsWellFormed(spec.functions)
    ensures var ds := AllDescriptors(spec, spec.functions);
            && Paths(ds) == ["/items"]
            && Group(ds, "/items") == [Describe(spec, f1, e1), Describe(spec, f2, e2)]
            && Decorated(Group(ds, "/items"))[0].first == Some(true)
            && Decorated(Group(ds, "/items"))[0].hasMore == Some(true)
            && Decorated(Group(ds, "/items"))[1].last == Some(true)
  {
    var d1, d2 := Describe(spec, f1, e1), Describe(spec, f2, e2);
    assert AllDescriptors(spec, spec.functions) == [d1, d2] by {
      ExampleDescriptors(spec, f1, e1, f2, e2);
    }
    SamePathGroup(d1, d2, "/items");
  }

  lemma ExampleDescriptors(spec: ServerlessSpec, f1: string, e1: Event, f2: string, e2: Event)
    requires spec.functions == [(f1, FunctionDef(Some([e1]))), (f2, FunctionDef(Some([e2])))]
    requires WellFormedEvent(e1) && WellFormedEvent(e2)
    ensures EventsWellFormed(spec.functions)
    ensures AllDescriptors(spec, spec.functions) == [Describe(spec, f1, e1), Describe(spec, f2, e2)]
  {
    var fs := spec.functions;
    ExampleWellFormed(fs, f1, e1, f2, e2);
    FirstFunctionDescriptors(spec, fs, f1, e1);
    OneEventContribution(spec, f2, e2);
    AllDescriptorsStep(spec, fs, 1);
    assert fs[..2] == fs;
  }

  /** The descriptors of a document's first function when it declares exactly one event. */
  lemma FirstFunctionDescriptors(spec: ServerlessSpec, fs: seq<(string, FunctionDef)>, f: string, e: Event)
    requires EventsWellFormed(fs) && fs != [] && fs[0] == (f, FunctionDef(Some([e]))) && WellFormedEvent(e)
    ensures EventsWellFormed(fs[..1]) && AllDescriptors(spec, fs[..1]) == [Describe(spec, f, e)]
  {
    OneEventContribution(spec, f, e);
    AllDescriptorsStep(spec, fs, 0);
    assert fs[..0] == [];
  }

  lemma ExampleWellFormed(fs: seq<(string, FunctionDef)>, f1: string, e1: Event, f2: string, e2: Event)
    requires fs == [(f1, FunctionDef(Some([e1]))), (f2, FunctionDef(Some([e2])))]
    requires WellFormedEvent(e1) && WellFormedEvent(e2)
    ensures EventsWellFormed(fs)
  {
    forall i | 0 <= i < |fs| && fs[i].1.events.Some?
      ensures forall e :: e in fs[i].1.events.value ==> WellFormedEvent(e)
    {
      assert i == 0 || i == 1;
    }
  }

  lemma OneEventContribution(spec: ServerlessSpec, f: string, e: Event)
    requires WellFormedEvent(e)
    ensures Contribution(spec, (f, FunctionDef(Some([e])))) == [Describe(spec, f, e)]
  {
    assert [e][..0] == [];
  }

  lemma SamePathGroup(d1: Descriptor, d2: Descriptor, p: string)
    requires d1.resourcePath == p && d2.resourcePath == p
    ensures Paths([d1, d2]) == [p] && Group([d1, d2], p) == [d1, d2]
  {
    assert [d1, d2][..1] == [d1] && [d1][..0] == [];
    assert Paths([d1]) == [p];
    assert Group([d1], p) == [d1];
  }
}
