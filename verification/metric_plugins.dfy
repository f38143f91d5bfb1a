/** Plugin tables of metric sinks: what grouping them by type conserves. */
module MetricPlugins {
  import opened GoLang
  import opened Collections

  /** A decoded JSON or TOML value. */
  datatype Value = Str(text: string) | Bool(flag: bool) | Number(n: int) | List(items: seq<Value>) | Nested(fields: map<string, Value>) | Null

  /** One input or output: a plugin's settings, among them its type. */
  type Plugin = map<string, Value>

  datatype Spec = Spec(inputs: seq<Plugin>, outputs: seq<Plugin>)

  /** Tables by plugin type. */
  type Groups = map<string, seq<Plugin>>

  const TYPE := "type"

  /** The type of a plugin that names one, and names it as a string. */
  function TypeOf(p: Plugin): Option<string> {
    if TYPE in p && p[TYPE].Str? then Some(p[TYPE].text) else None
  }

  function Strip(p: Plugin): Plugin {
    p - {TYPE}
  }

  function Group(g: Groups, t: string): seq<Plugin> {
    if t in g then g[t] else []
  }

  /** What one plugin contributes to the tables of type `t`. */
  function TableOf(t: string): Plugin -> seq<Plugin> {
    (p: Plugin) => if TypeOf(p) == Some(t) then [Strip(p)] else []
  }

  function TablesOf(t: string, plugins: seq<Plugin>): seq<Plugin> {
    FlatMap(TableOf(t), plugins)
  }

  /** What the tables of type `t` are: the entries whose "type" is that string, in order, each with every other setting and no type. */
  lemma TablesExactly(t: string, first: seq<Plugin>, p: Plugin, second: seq<Plugin>)
    ensures TablesOf(t, []) == []
    ensures TablesOf(t, first + [p] + second)
         == TablesOf(t, first)
            + (if "type" in p && p["type"] == Str(t) then [map k | k in p && k != "type" :: p[k]] else [])
            + TablesOf(t, second)
  {
    FlatMapAppend(TableOf(t), first + [p], second);
    OneMoreTable(t, first, p);
    assert Strip(p) == map k | k in p && k != "type" :: p[k];
  }

  /** The list for `t` is the one in `base` followed by the plugins of that type in order, each without its type. */
  predicate AggregatesAt(base: Groups, plugins: seq<Plugin>, result: Groups, t: string) {
    && Group(result, t) == Group(base, t) + TablesOf(t, plugins)
    && (t in result <==> t in base || TablesOf(t, plugins) != [])
  }

  /** So it is for every type, and there is a list only for the types of `base` and of the plugins. */
  ghost predicate Aggregates(base: Groups, plugins: seq<Plugin>, result: Groups) {
    forall t :: AggregatesAt(base, plugins, result, t)
  }

  lemma AggregatesNothing(base: Groups)
    ensures Aggregates(base, [], base)
  {
  }

  lemma OneMoreTable(t: string, plugins: seq<Plugin>, p: Plugin)
    ensures TablesOf(t, plugins + [p]) == TablesOf(t, plugins) + TableOf(t)(p)
  {
    FlatMapAppend(TableOf(t), plugins, [p]);
    assert [p][1..] == [];
  }

  lemma AggregateUntyped(base: Groups, plugins: seq<Plugin>, result: Groups, p: Plugin)
    requires Aggregates(base, plugins, result) && TypeOf(p) == None
    ensures Aggregates(base, plugins + [p], result)
  {
    forall t ensures AggregatesAt(base, plugins + [p], result, t) {
      assert AggregatesAt(base, plugins, result, t);
      OneMoreTable(t, plugins, p);
      hide TablesOf;
    }
  }

  lemma TableOfTyped(t: string, p: Plugin, kind: string)
    requires TypeOf(p) == Some(kind)
    ensures TableOf(t)(p) == if t == kind then [Strip(p)] else []
  {
  }

  lemma AggregateTyped(base: Groups, plugins: seq<Plugin>, result: Groups, p: Plugin, kind: string, more: Groups)
    requires Aggregates(base, plugins, result) && TypeOf(p) == Some(kind)
    requires more == result[kind := Group(result, kind) + [Strip(p)]]
    ensures Aggregates(base, plugins + [p], more)
  {
    hide TablesOf, Strip, TypeOf, TableOf;
    forall t ensures AggregatesAt(base, plugins + [p], more, t) {
      assert AggregatesAt(base, plugins, result, t);
      OneMoreTable(t, plugins, p);
      TableOfTyped(t, p, kind);
      hide Aggregates;
      assert Group(more, t) == Group(result, t) + if t == kind then [Strip(p)] else [];
    }
  }

  /** Appending the plugins one after the other. */
  function Aggregate(base: Groups, plugins: seq<Plugin>): Groups {
    if plugins == [] then base
    else
      var last := |plugins| - 1;
      var g := Aggregate(base, plugins[..last]);
      match TypeOf(plugins[last])
      case None => g
      case Some(t) => g[t := Group(g, t) + [Strip(plugins[last])]]
  }

  lemma {:induction false} AggregateMeaning(base: Groups, plugins: seq<Plugin>)
    ensures Aggregates(base, plugins, Aggregate(base, plugins))
    decreases |plugins|
  {
    if plugins == [] {
      AggregatesNothing(base);
    } else {
      hide Aggregates, TypeOf;
      var front, p := plugins[..|plugins| - 1], plugins[|plugins| - 1];
      AggregateMeaning(base, front);
      assert plugins == front + [p];
      match TypeOf(p) {
        case None => AggregateUntyped(base, front, Aggregate(base, front), p);
        case Some(t) => AggregateTyped(base, front, Aggregate(base, front), p, t, Aggregate(base, plugins));
      }
    }
  }

  lemma {:induction false} AggregateAppend(base: Groups, first: seq<Plugin>, second: seq<Plugin>)
    ensures Aggregate(base, first + second) == Aggregate(Aggregate(base, first), second)
    decreases |second|
  {
    if second == [] {
      assert first + second == first;
    } else {
      var last := |second| - 1;
      assert (first + second)[..|first| + last] == first + second[..last];
      AggregateAppend(base, first, second[..last]);
    }
  }

  /** Appending one by one gives the one grouping that satisfies the relation. */
  lemma AggregatesExactly(base: Groups, plugins: seq<Plugin>, result: Groups)
    ensures Aggregates(base, plugins, result) <==> result == Aggregate(base, plugins)
  {
    hide Aggregates, Aggregate;
    AggregateMeaning(base, plugins);
    if Aggregates(base, plugins, result) {
      AggregationIsUnique(base, plugins, result, Aggregate(base, plugins));
    }
  }

  /** The relation leaves no choice. */
  lemma AggregationIsUnique(base: Groups, plugins: seq<Plugin>, a: Groups, b: Groups)
    requires Aggregates(base, plugins, a) && Aggregates(base, plugins, b)
    ensures a == b
  {
    hide TablesOf, Aggregates, AggregatesAt;
    forall t ensures Group(a, t) == Group(b, t) && (t in a <==> t in b) {
      UniqueAt(base, plugins, a, b, t);
    }
    forall t | t in a ensures t in b && a[t] == b[t] {
      assert Group(a, t) == Group(b, t);
    }
  }

  lemma UniqueAt(base: Groups, plugins: seq<Plugin>, a: Groups, b: Groups, t: string)
    requires Aggregates(base, plugins, a) && Aggregates(base, plugins, b)
    ensures Group(a, t) == Group(b, t) && (t in a <==> t in b)
  {
    assert AggregatesAt(base, plugins, a, t) && AggregatesAt(base, plugins, b, t);
  }

  // Conservation.

  datatype Typed = Typed(kind: string, table: Plugin)

  function TypedOf(p: Plugin): seq<Typed> {
    match TypeOf(p)
    case None => []
    case Some(t) => [Typed(t, Strip(p))]
  }

  function Tag(t: string, tables: seq<Plugin>): seq<Typed> {
    seq(|tables|, i requires 0 <= i < |tables| => Typed(t, tables[i]))
  }

  /** All tables of `g`, type by type. */
  function Flatten(g: Groups, types: seq<string>): seq<Typed> {
    FlatMap(t => Tag(t, Group(g, t)), types)
  }

  lemma {:induction false} TagCounts(t: string, tables: seq<Plugin>, x: Typed)
    ensures multiset(Tag(t, tables))[x] == if x.kind == t then multiset(tables)[x.table] else 0
  {
    if tables == [] {
      assert Tag(t, tables) == [];
    } else {
      TagCounts(t, tables[1..], x);
      assert Tag(t, tables) == [Typed(t, tables[0])] + Tag(t, tables[1..]);
      assert tables == [tables[0]] + tables[1..];
    }
  }

  lemma {:induction false} FlattenCounts(g: Groups, types: seq<string>, x: Typed)
    requires Distinct(types)
    ensures multiset(Flatten(g, types))[x] == if x.kind in types then multiset(Group(g, x.kind))[x.table] else 0
  {
    if types != [] {
      FlattenCounts(g, types[1..], x);
      TagCounts(types[0], Group(g, types[0]), x);
      assert types == [types[0]] + types[1..];
    }
  }

  lemma {:induction false} TypedCounts(plugins: seq<Plugin>, x: Typed)
    ensures multiset(FlatMap(TypedOf, plugins))[x] == multiset(TablesOf(x.kind, plugins))[x.table]
  {
    if plugins != [] {
      TypedCounts(plugins[1..], x);
      assert TypedOf(plugins[0]) == [] || (TypeOf(plugins[0]).Some? && TypedOf(plugins[0]) == [Typed(TypeOf(plugins[0]).value, Strip(plugins[0]))]);
      assert multiset(TypedOf(plugins[0]))[x] == multiset(TableOf(x.kind)(plugins[0]))[x.table];
    }
  }

  /** Grouping neither loses nor invents a table: those of `base` and one for each string-typed plugin, type and all. */
  lemma AggregationConserves(base: Groups, plugins: seq<Plugin>, result: Groups, baseTypes: seq<string>, types: seq<string>)
    requires Aggregates(base, plugins, result) && Enumerates(baseTypes, base) && Enumerates(types, result)
    ensures multiset(Flatten(result, types)) == multiset(Flatten(base, baseTypes)) + multiset(FlatMap(TypedOf, plugins))
    ensures |Flatten(result, types)| == |Flatten(base, baseTypes)| + |FlatMap(TypedOf, plugins)|
  {
    hide Aggregates, Flatten, Enumerates;
    forall x ensures multiset(Flatten(result, types))[x] == multiset(Flatten(base, baseTypes))[x] + multiset(FlatMap(TypedOf, plugins))[x] {
      ConservesOne(base, plugins, result, baseTypes, types, x);
    }
    SameSize(Flatten(result, types), Flatten(base, baseTypes), FlatMap(TypedOf, plugins));
  }

  lemma SameSize<T>(all: seq<T>, a: seq<T>, b: seq<T>)
    requires forall x :: multiset(all)[x] == multiset(a)[x] + multiset(b)[x]
    ensures multiset(all) == multiset(a) + multiset(b) && |all| == |a| + |b|
  {
    assert multiset(all) == multiset(a + b);
    assert |multiset(all)| == |multiset(a + b)|;
  }

  lemma ConservesOne(base: Groups, plugins: seq<Plugin>, result: Groups, baseTypes: seq<string>, types: seq<string>, x: Typed)
    requires Aggregates(base, plugins, result) && Enumerates(baseTypes, base) && Enumerates(types, result)
    ensures multiset(Flatten(result, types))[x] == multiset(Flatten(base, baseTypes))[x] + multiset(FlatMap(TypedOf, plugins))[x]
  {
    FlattenCounts(result, types, x);
    FlattenCounts(base, baseTypes, x);
    TypedCounts(plugins, x);
    assert AggregatesAt(base, plugins, result, x.kind);
    hide Flatten, TablesOf, Distinct, Aggregates;
    assert x.kind !in types ==> Group(result, x.kind) == [];
    assert x.kind !in baseTypes ==> Group(base, x.kind) == [];
  }

  /** Aggregating the same plugins in another order gives the same types, and each type's tables in another order. */
  lemma AggregationPermutes(base: Groups, a: seq<Plugin>, b: seq<Plugin>, left: Groups, right: Groups)
    requires multiset(a) == multiset(b) && Aggregates(base, a, left) && Aggregates(base, b, right)
    ensures left.Keys == right.Keys
    ensures forall t :: multiset(Group(left, t)) == multiset(Group(right, t))
  {
    hide Aggregates;
    forall t ensures (t in left <==> t in right) && multiset(Group(left, t)) == multiset(Group(right, t)) {
      PermutesAt(base, a, b, left, right, t);
    }
  }

  lemma PermutesAt(base: Groups, a: seq<Plugin>, b: seq<Plugin>, left: Groups, right: Groups, t: string)
    requires multiset(a) == multiset(b) && Aggregates(base, a, left) && Aggregates(base, b, right)
    ensures (t in left <==> t in right) && multiset(Group(left, t)) == multiset(Group(right, t))
  {
    FlatMapPermutes(TableOf(t), a, b);
    assert AggregatesAt(base, a, left, t) && AggregatesAt(base, b, right, t);
    assert |multiset(TablesOf(t, a))| == |TablesOf(t, a)| && |multiset(TablesOf(t, b))| == |TablesOf(t, b)|;
  }

  /** Some plugin is typed exactly if some type has a table. */
  lemma {:induction false} TypedGivesTable(plugins: seq<Plugin>)
    ensures (exists t :: TablesOf(t, plugins) != []) <==> exists p :: p in plugins && TypeOf(p).Some?
  {
    forall t ensures TablesOf(t, plugins) != [] <==> exists p :: p in plugins && TypeOf(p) == Some(t) {
      NonEmptyTables(t, plugins);
    }
    if p :| p in plugins && TypeOf(p).Some? {
      assert TablesOf(TypeOf(p).value, plugins) != [];
    }
  }

  lemma NonEmptyTables(t: string, plugins: seq<Plugin>)
    ensures TablesOf(t, plugins) != [] <==> exists p :: p in plugins && TypeOf(p) == Some(t)
  {
    if TablesOf(t, plugins) != [] {
      FlatMapMember(TableOf(t), plugins, TablesOf(t, plugins)[0]);
    }
    if p :| p in plugins && TypeOf(p) == Some(t) {
      assert Strip(p) in TableOf(t)(p);
      FlatMapMember(TableOf(t), plugins, Strip(p));
    }
  }
}
