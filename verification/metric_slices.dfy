/**
 Go slices on the heap. `append` writes into the backing array when there is room behind the slice, so two slices that
 share an array can overwrite each other's elements; this module tracks which arrays may be written.
 */
module MetricSlices {
  import opened MetricPlugins

  /** The first `len` elements of a backing array; the array's length is the slice's capacity. */
  datatype Slice = Slice(backing: array<Plugin>, len: nat)

  predicate Fits(s: Slice) {
    s.len <= s.backing.Length
  }

  predicate Full(s: Slice) {
    s.len == s.backing.Length
  }

  function Elements(s: Slice): seq<Plugin>
    requires Fits(s)
    reads s.backing
  {
    s.backing[..s.len]
  }

  /** `s` holds `tables`, in an array of its owner's or in a shared one; in a shared one it has no room to grow. */
  ghost predicate Holds(s: Slice, tables: seq<Plugin>, owned: set<array<Plugin>>, shared: set<array<Plugin>>)
    reads owned, shared
  {
    && s.backing in owned + shared && Fits(s) && Elements(s) == tables
    && (!Full(s) ==> s.backing in owned)
  }

  /** The slices of `m` hold the tables `g`, and one with room behind it has an array of its own. */
  ghost predicate HoldsAll(m: map<string, Slice>, g: Groups, owned: set<array<Plugin>>, shared: set<array<Plugin>>)
    reads owned, shared
  {
    && m.Keys == g.Keys
    && (forall t | t in m :: Holds(m[t], g[t], owned, shared))
    && (forall t, u | t in m && u in m && t != u && !Full(m[t]) :: m[t].backing != m[u].backing)
  }

  /** A slice with one element more than `s`, in the same array if that has room and in a new one of any size if not. */
  method Append(s: Slice, p: Plugin) returns (r: Slice)
    requires Fits(s)
    modifies if Full(s) then {} else {s.backing}
    ensures Fits(r) && Elements(r) == old(Elements(s)) + [p]
    ensures if Full(s) then fresh(r.backing) else r.backing == s.backing && s.backing[..s.len] == old(s.backing[..s.len])
  {
    if s.len < s.backing.Length {
      s.backing[s.len] := p;
      r := Slice(s.backing, s.len + 1);
    } else {
      var capacity :| capacity > s.len;
      var grown := new Plugin[capacity];
      for i := 0 to s.len
        invariant grown[..i] == s.backing[..i]
        invariant fresh(grown) && s.backing[..] == old(s.backing[..])
      {
        grown[i] := s.backing[i];
      }
      grown[s.len] := p;
      r := Slice(grown, s.len + 1);
    }
  }

  /** Appends to the slice under `t`; `mine` are the arrays owned afterwards. */
  method Extend(m: map<string, Slice>, t: string, table: Plugin, ghost g: Groups, ghost owned: set<array<Plugin>>, ghost shared: set<array<Plugin>>)
    returns (more: map<string, Slice>, ghost mine: set<array<Plugin>>)
    requires owned !! shared && HoldsAll(m, g, owned, shared)
    modifies owned
    ensures owned <= mine && fresh(mine - owned) && mine !! shared
    ensures HoldsAll(more, g[t := Group(g, t) + [table]], mine, shared)
  {
    var s;
    if t in m {
      s := m[t];
    } else {
      var nothing := new Plugin[0];
      s := Slice(nothing, 0);
    }
    assert Elements(s) == Group(g, t);
    var r := Append(s, table);
    more := m[t := r];
    mine := if Full(s) then owned + {r.backing} else owned;
    hide Elements;
    forall u | u in m && u != t ensures Holds(m[u], g[u], mine, shared) {
      assert Full(s) || m[u].backing != s.backing;
    }
    assert Holds(r, Group(g, t) + [table], mine, shared);
  }

  /** The tables of one configuration under construction: a map from plugin types to slices, some of them shared with others. */
  class PluginTables {
    var slices: map<string, Slice>
    ghost var groups: Groups
    /** Arrays allocated for these tables alone. */
    ghost var owned: set<array<Plugin>>
    /** Arrays that others read too. */
    ghost const shared: set<array<Plugin>>

    ghost predicate Valid()
      reads this, owned, shared
    {
      owned !! shared && HoldsAll(slices, groups, owned, shared)
    }

    constructor Empty()
      ensures Valid() && groups == map[] && owned == {} && shared == {}
    {
      slices, groups, owned, shared := map[], map[], {}, {};
    }

    /** A single table. */
    constructor Of(t: string, table: Plugin)
      ensures Valid() && fresh(owned) && groups == map[t := [table]] && shared == {}
    {
      var backing := new Plugin[1];
      backing[0] := table;
      assert backing[..1] == [table];
      slices, groups, owned, shared := map[t := Slice(backing, 1)], map[t := [table]], {backing}, {};
      new;
      assert Holds(slices[t], [table], owned, shared);
    }

    /** `copyInputs`: the copied map holds the very slices of the original one. */
    constructor CopyInputs(input: map<string, Slice>, ghost g: Groups, ghost arrays: set<array<Plugin>>)
      requires HoldsAll(input, g, {}, arrays)
      ensures Valid() && slices == input && groups == g && owned == {} && shared == arrays
    {
      slices, groups, owned, shared := map[], g, {}, arrays;
      new;
      hide HoldsAll;
      var todo := input.Keys;
      while todo != {}
        invariant todo <= input.Keys && owned == {} && groups == g
        invariant slices == map t | t in input && t !in todo :: input[t]
        decreases |todo|
      {
        var t :| t in todo;
        slices := slices[t := input[t]];
        todo := todo - {t};
      }
      assert slices == input;
    }

    /** Appends `p`, less its type, to the tables of that type; does nothing for a plugin without a string type. */
    method Add(p: Plugin)
      requires Valid()
      modifies this, owned
      ensures Valid() && fresh(owned - old(owned)) && old(owned) <= owned
      ensures match TypeOf(p)
              case None => groups == old(groups)
              case Some(t) => groups == old(groups)[t := Group(old(groups), t) + [Strip(p)]]
    {
      if TYPE !in p || !p[TYPE].Str? {
        return;
      }
      hide HoldsAll;
      var t := p[TYPE].text;
      var table := StripType(p);
      var more, mine := Extend(slices, t, table, groups, owned, shared);
      slices, owned, groups := more, mine, groups[t := Group(groups, t) + [table]];
    }
  }

  method StripType(p: Plugin) returns (table: Plugin)
    ensures table == Strip(p)
  {
    table := map[];
    var todo := p.Keys;
    while todo != {}
      invariant todo <= p.Keys && table == map k | k in p && k !in todo && k != TYPE :: p[k]
      decreases |todo|
    {
      var k :| k in todo;
      if k != TYPE {
        table := table[k := p[k]];
      }
      todo := todo - {k};
    }
  }
}
