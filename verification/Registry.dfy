/** Plugin registries and the list of plugins a build draws from. */
module Registries {
  import opened Common
  import opened Seqs
  import opened Plugins

  datatype RegisterError = NilPlugin | EmptyName | AlreadyRegistered

  /** A name-to-plugin table and the order of registration. */
  datatype Table = Table(plugins: map<string, Plugin>, order: seq<string>)

  ghost predicate Consistent(t: Table) {
    && Lists(t.order, t.plugins.Keys)
    && (forall n :: n in t.plugins ==> t.plugins[n].name == n && n != "")
  }

  /** The registered plugins in order of registration. */
  function Snapshot(t: Table): (r: seq<Plugin>)
    requires forall n :: n in t.order ==> n in t.plugins
    ensures |r| == |t.order| && forall i :: 0 <= i < |r| ==> r[i] == t.plugins[t.order[i]]
  {
    seq(|t.order|, i requires 0 <= i < |t.order| => t.plugins[t.order[i]])
  }

  lemma SnapshotNames(t: Table)
    requires Consistent(t)
    ensures Names(Snapshot(t)) == t.order && NoDup(Names(Snapshot(t)))
  {
    forall i | 0 <= i < |t.order| ensures Snapshot(t)[i].name == t.order[i] {
      assert t.order[i] in t.order;
    }
  }

  class Registry {
    var plugins: map<string, Plugin>
    var order: seq<string>

    ghost function Contents(): Table
      reads this
    {
      Table(plugins, order)
    }

    constructor ()
      ensures Contents() == Table(map[], []) && Consistent(Contents())
    {
      plugins, order := map[], [];
    }

    method Register(p: Option<Plugin>) returns (r: Result<(), RegisterError>)
      requires Consistent(Contents())
      modifies this
      ensures Consistent(Contents())
      ensures r == if p.None? then Failure(NilPlugin) else if p.value.name == "" then Failure(EmptyName)
                   else if p.value.name in old(plugins) then Failure(AlreadyRegistered) else Success(())
      ensures r.Failure? ==> Contents() == old(Contents())
      ensures r.Success? ==> Contents() == Table(old(plugins)[p.value.name := p.value], old(order) + [p.value.name])
    {
      if p.None? {
        return Failure(NilPlugin);
      }
      var name := p.value.name;
      if name == "" {
        return Failure(EmptyName);
      }
      if name in plugins {
        return Failure(AlreadyRegistered);
      }
      ListsJoin(order, plugins.Keys, name, plugins[name := p.value].Keys);
      plugins := plugins[name := p.value];
      order := order + [name];
      return Success(());
    }

    method Plugins() returns (out: seq<Plugin>)
      requires Consistent(Contents())
      ensures out == Snapshot(Contents())
    {
      out := [];
      var i := 0;
      while i < |order|
        invariant 0 <= i <= |order|
        invariant |out| == i && forall k :: 0 <= k < i ==> out[k] == plugins[order[k]]
      {
        assert order[i] in order;
        out := out + [plugins[order[i]]];
        i := i + 1;
      }
    }

    method Reset()
      modifies this
      ensures Contents() == Table(map[], []) && Consistent(Contents())
    {
      plugins, order := map[], [];
    }
  }

  function NotOverridden(t: Table): Plugin -> bool {
    (p: Plugin) => p.name !in t.plugins
  }

  /** The plugins of one registry, then those of the default registry it does not override. */
  function Combined(own: Table, base: Table): seq<Plugin>
    requires forall n :: n in own.order ==> n in own.plugins
    requires forall n :: n in base.order ==> n in base.plugins
  {
    Snapshot(own) + Filter(Snapshot(base), NotOverridden(own))
  }

  /** No name occurs twice in a combined list, and the registry's own plugin always wins. */
  lemma CombinedUnique(own: Table, base: Table)
    requires Consistent(own) && Consistent(base)
    ensures NoDup(Names(Combined(own, base)))
    ensures forall n :: n in Names(Combined(own, base)) <==> n in own.plugins || n in base.plugins
    ensures forall p :: p in Combined(own, base) && p.name in own.plugins ==> p == own.plugins[p.name]
  {
    var a, b := Snapshot(own), Filter(Snapshot(base), NotOverridden(own));
    SnapshotNames(own);
    SnapshotNames(base);
    FilterMembers(Snapshot(base), NotOverridden(own));
    FilterNames(Snapshot(base), NotOverridden(own));
    NamesMembers(a);
    NamesMembers(b);
    NamesMembers(Snapshot(base));
    assert Names(a + b) == Names(a) + Names(b);
    forall n | n in Names(a) ensures n !in Names(b) {
      assert n in own.order;
    }
    NoDupConcat(Names(a), Names(b));
    forall n ensures n in Names(a + b) <==> n in own.plugins || n in base.plugins {
      assert n in Names(a) <==> n in own.order;
      if n in base.plugins && n !in own.plugins {
        assert n in base.order;
        assert n in Names(Snapshot(base));
        var p :| p in Snapshot(base) && p.name == n;
        assert p in b;
      }
    }
  }

  /** The own plugins stand first, in their order; the defaults follow in theirs. */
  lemma CombinedInOrder(own: Table, base: Table)
    requires Consistent(own) && Consistent(base)
    ensures own.order <= Names(Combined(own, base))
    ensures Names(Combined(own, base))[|own.order|..] == Filter(base.order, n => n !in own.plugins)
  {
    SnapshotNames(own);
    SnapshotNames(base);
    var rest := Filter(Snapshot(base), NotOverridden(own));
    assert Names(Combined(own, base)) == Names(Snapshot(own)) + Names(rest);
    FilterNamesSame(Snapshot(base), own);
  }

  lemma {:induction false} FilterNamesSame(s: seq<Plugin>, own: Table)
    ensures Names(Filter(s, NotOverridden(own))) == Filter(Names(s), n => n !in own.plugins)
  {
    if s != [] {
      FilterNamesSame(s[1..], own);
      assert Names(s)[1..] == Names(s[1..]);
      NamesCons(s[0], Filter(s[1..], NotOverridden(own)));
      assert Names(s)[0] == s[0].name;
    }
  }

  lemma NamesCons(p: Plugin, rest: seq<Plugin>)
    ensures Names([p] + rest) == [p.name] + Names(rest) && Names([] + rest) == [] + Names(rest)
  {
    assert [] + rest == rest;
  }

  lemma NamesMembers(s: seq<Plugin>)
    ensures forall n :: n in Names(s) <==> exists p :: p in s && p.name == n
  {
    forall n ensures n in Names(s) <==> exists p :: p in s && p.name == n {
      if n in Names(s) {
        var i :| 0 <= i < |s| && Names(s)[i] == n;
        assert s[i] in s;
      }
      if p :| p in s && p.name == n {
        var i :| 0 <= i < |s| && s[i] == p;
        assert Names(s)[i] == n;
      }
    }
  }

  lemma {:induction false} FilterNames(s: seq<Plugin>, keep: Plugin -> bool)
    requires NoDup(Names(s))
    ensures NoDup(Names(Filter(s, keep)))
  {
    if s != [] {
      assert Names(s[1..]) == Names(s)[1..];
      FilterNames(s[1..], keep);
      var rest := Filter(s[1..], keep);
      FilterMembers(s[1..], keep);
      NamesMembers(rest);
      NamesMembers(s[1..]);
      assert s[0].name == Names(s)[0] && s[0].name !in Names(s[1..]);
      if keep(s[0]) {
        assert Names([s[0]] + rest) == [s[0].name] + Names(rest);
      }
    }
  }

  /** The plugins that take part in a build, as the loader collects them. */
  method Registered(own: Registry?, base: Registry) returns (out: seq<Plugin>)
    requires own != null ==> Consistent(own.Contents())
    requires Consistent(base.Contents())
    ensures out == if own == null || own == base then Snapshot(base.Contents())
                   else Combined(own.Contents(), base.Contents())
    ensures NoDup(Names(out))
  {
    if own == null || own == base {
      out := base.Plugins();
      SnapshotNames(base.Contents());
    } else {
      out := own.Plugins();
      var others := base.Plugins();
      ghost var keep := NotOverridden(own.Contents());
      ghost var first := out;
      var i := 0;
      while i < |others|
        invariant 0 <= i <= |others|
        invariant out == first + Filter(others[..i], keep)
      {
        FilterAppend(others[..i], others[i], keep);
        assert others[..i + 1] == others[..i] + [others[i]];
        if others[i].name !in own.plugins {
          out := out + [others[i]];
        }
        i := i + 1;
      }
      assert others[..i] == others;
      CombinedUnique(own.Contents(), base.Contents());
    }
  }
}
