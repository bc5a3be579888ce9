/** The Compose document edited in place (packages/compose/src/compose.ts). */
module ComposeDocument {
  import opened Text
  import opened StableSort
  import opened YamlTree
  import opened Compose
  import opened ComposeLaws

  /** setOrDelete. */
  method SetOrDelete(ps: Pairs, key: string, v: Option<Node>) returns (r: Pairs)
    ensures r == if v.Some? then Put(ps, key, v.value) else Drop(ps, key)
  {
    if v == None { return Drop(ps, key); }
    r := Put(ps, key, v.value);
  }

  lemma {:induction false} SomesSnoc(settings: seq<(string, Option<Node>)>, i: nat)
    requires i < |settings|
    ensures Somes(settings[..i + 1]) == Somes(settings[..i]) + if settings[i].1.Some?
      then [(settings[i].0, settings[i].1.value)] else []
  {
    if i == 0 {
      assert settings[..1] == [settings[0]] && settings[..1][1..] == [] && settings[..0] == [];
    } else {
      var tail := settings[1..];
      assert settings[..i + 1][1..] == tail[..i] && settings[..i][1..] == tail[..i - 1];
      SomesSnoc(tail, i - 1);
    }
  }

  lemma {:induction false} NotYetWritten(service: Pairs, settings: seq<(string, Option<Node>)>, i: nat)
    requires Settled(settings) && i < |settings|
    ensures !Has(Unknown(service) + Somes(settings[..i]), settings[i].0)
  {
    OrderDistinct();
    assert settings[i].0 in ORDER;
    UnknownLacks(service, settings[i].0);
    var before := settings[..i];
    SomesKeys(before);
    hide ORDER, Unknown, Somes;
    forall k | 0 <= k < |Somes(before)| ensures Somes(before)[k].0 != settings[i].0 {
      assert Somes(before)[k] in Somes(before);
      var j :| 0 <= j < |before| && before[j].0 == Somes(before)[k].0;
      assert before[j] == settings[j];
    }
    HasParts(Unknown(service), Somes(before), settings[i].0);
  }

  lemma {:induction false} UnknownSnoc(service: Pairs, kept: Pairs, i: nat)
    requires i < |ORDER| && kept == Filter(service, (p: (string, Node)) => p.0 !in ORDER[..i])
    ensures Drop(kept, ORDER[i]) == Filter(service, (p: (string, Node)) => p.0 !in ORDER[..i + 1])
  {
    assert ORDER[..i + 1] == ORDER[..i] + [ORDER[i]];
    hide ORDER;
    DropIsFilter(kept, ORDER[i]);
    FilterTwice(service, (p: (string, Node)) => p.0 !in ORDER[..i], (p: (string, Node)) => p.0 != ORDER[i],
      (p: (string, Node)) => p.0 !in ORDER[..i + 1]);
  }

  lemma {:induction false} DropIsFilter(ps: Pairs, key: string)
    ensures Drop(ps, key) == Filter(ps, (p: (string, Node)) => p.0 != key)
  {
    if ps != [] { DropIsFilter(ps[1..], key); }
  }

  /** Deletes the managed keys and writes them again, in order. */
  method RewriteService(service: Pairs, settings: seq<(string, Option<Node>)>) returns (r: Pairs)
    requires Settled(settings)
    ensures r == Unknown(service) + Somes(settings)
  {
    hide ORDER, Unknown, Somes;
    r := service;
    UnknownStart(service);
    for i := 0 to |ORDER|
      invariant r == Filter(service, (p: (string, Node)) => p.0 !in ORDER[..i])
    {
      UnknownSnoc(service, r, i);
      r := Drop(r, ORDER[i]);
    }
    UnknownEnd(service);
    for i := 0 to |settings|
      invariant r == Unknown(service) + Somes(settings[..i])
    {
      NotYetWritten(service, settings, i);
      SomesSnoc(settings, i);
      var key, v := settings[i].0, settings[i].1;
      if v.Some? { PutNew(r, key, v.value); } else { DropNothing(r, key); }
      assert r + [] == r;
      r := SetOrDelete(r, key, v);
    }
    assert settings[..|settings|] == settings;
  }

  lemma {:induction false} UnknownStart(service: Pairs)
    ensures Filter(service, (p: (string, Node)) => p.0 !in ORDER[..0]) == service
  {
    FilterAll(service, (p: (string, Node)) => p.0 !in ORDER[..0]);
  }

  lemma {:induction false} UnknownEnd(service: Pairs)
    ensures Filter(service, (p: (string, Node)) => p.0 !in ORDER[..|ORDER|]) == Unknown(service) + Somes([])
  {
    assert ORDER[..|ORDER|] == ORDER;
    FilterSame(service, (p: (string, Node)) => p.0 !in ORDER[..|ORDER|], (p: (string, Node)) => Unmanaged(p));
    assert Unknown(service) + [] == Unknown(service);
  }

  /** The x-hsi object: unknown subkeys carried over, then the model's. */
  method NewXHsi(x: App, service: Pairs) returns (xhsi: Pairs)
    ensures xhsi == XHsi(x, service)
  {
    hide IndexLike, DomainPorts, PINNED_URL, PORTS, X_HSI, PROTO;
    var prev := FromEntries(MapAt(service, X_HSI));
    var keep := (p: (string, Node)) => CarriesOver(p);
    xhsi := [];
    assert prev[..0] == [] && Filter(prev[..0], keep) == [];
    for i := 0 to |prev|
      invariant xhsi == FromEntries(Filter(prev[..i], keep))
    {
      FilterStep(prev, i, keep);
      if NotOwn(prev[i]) { xhsi := JsAssign(xhsi, prev[i].0, prev[i].1); }
    }
    assert prev[..|prev|] == prev;
    SectionsDistinct();
    CarriedFacts(service);
    KeptExactly(Carried(service));
    OwnPartsNew(x, service);
    XHsiParts(x, service);
    if x.pinnedUrl.Some? && x.pinnedUrl.value != "" {
      xhsi := JsAssign(xhsi, PINNED_URL, Str(x.pinnedUrl.value));
    } else {
      assert xhsi + [] == xhsi;
    }
    var ports := DomainPorts(x.ports);
    if ports != [] { xhsi := JsAssign(xhsi, PORTS, Seq(ports)); } else { assert xhsi + [] == xhsi; }
  }

  lemma {:induction false} FilterStep(ps: Pairs, i: nat, keep: ((string, Node)) -> bool)
    requires i < |ps|
    ensures var f := Filter(ps[..i], keep);
            FromEntries(Filter(ps[..i + 1], keep)) == if keep(ps[i]) then JsSet(FromEntries(f), ps[i].0, ps[i].1)
              else FromEntries(f)
  {
    var f := Filter(ps[..i], keep);
    assert ps[..i + 1] == ps[..i] + [ps[i]];
    FilterConcat(ps[..i], [ps[i]], keep);
    FilterCons(ps[i], [], keep);
    assert [ps[i]] + [] == [ps[i]];
    if keep(ps[i]) { assert (f + [ps[i]])[..|f|] == f; } else { assert f + [] == f; }
  }

  /** The model's subkeys are not among those carried over, nor index-like. */
  lemma {:induction false} OwnPartsNew(x: App, service: Pairs)
    ensures !IndexLike(PINNED_URL) && !IndexLike(PORTS) && !Has(Carried(service), PINNED_URL)
      && !Has(Carried(service), PORTS)
    ensures forall v: Node :: !Has(Carried(service) + [(PINNED_URL, v)], PORTS)
  {
    SectionsDistinct();
    CarriedFacts(service);
    var c := Carried(service);
    forall i | 0 <= i < |c| ensures c[i].0 != PINNED_URL && c[i].0 != PORTS { assert c[i] in c && CarriesOver(c[i]); }
    hide Carried, PINNED_URL, PORTS, IndexLike, Find;
    forall v: Node ensures !Has(c + [(PINNED_URL, v)], PORTS) {
      HasParts(c, [(PINNED_URL, v)], PORTS);
      OneFind((PINNED_URL, v), PORTS);
    }
  }

  // ── Named volumes ───────────────────────────────────────────────────────────

  lemma {:induction false} SourcesConcat(a: seq<Node>, b: seq<Node>)
    ensures NamedSources(a + b) == NamedSources(a) + NamedSources(b)
  {
    if a == [] {
      assert a + b == b;
    } else {
      assert (a + b)[1..] == a[1..] + b;
      SourcesConcat(a[1..], b);
    }
  }

  lemma {:induction false} AllSourcesConcat(a: Pairs, b: Pairs)
    ensures AllSources(a + b) == AllSources(a) + AllSources(b)
  {
    if a == [] {
      assert a + b == b;
    } else {
      assert (a + b)[1..] == a[1..] + b;
      hide ServiceSources;
      AllSourcesConcat(a[1..], b);
      assert ServiceSources(a[0].1) + (AllSources(a[1..]) + AllSources(b)) == ServiceSources(a[0].1)
        + AllSources(a[1..]) + AllSources(b);
    }
  }

  lemma {:induction false} SourcesStep(items: seq<Node>, j: nat)
    requires j < |items|
    ensures NamedSources(items[..j + 1]) == NamedSources(items[..j]) + NamedSources([items[j]])
    ensures var s := VolumeSource(items[j]); NamedSources([items[j]]) == if s.Some?
      && IsVolumeName(s.value) then [s.value] else []
  {
    assert items[..j + 1] == items[..j] + [items[j]];
    SourcesConcat(items[..j], [items[j]]);
    assert [items[j]][1..] == [];
  }

  lemma {:induction false} OnceSnoc(xs: seq<string>, x: string)
    ensures Once(xs + [x]) == if x in Once(xs) then Once(xs) else Once(xs) + [x]
  {
    assert (xs + [x])[..|xs|] == xs;
  }

  /** namedVolumeRefs. */
  method NamedVolumeRefs(top: Pairs) returns (refs: seq<string>)
    ensures refs == Refs(top)
  {
    hide Once, AllSources, NamedSources, ServiceSources, VolumeSource, IsVolumeName, VOLUMES, SERVICES;
    var services := FromEntries(MapAt(top, SERVICES));
    refs := [];
    NoSources();
    assert services[..0] == [];
    for i := 0 to |services|
      invariant refs == Once(AllSources(services[..i]))
    {
      ghost var before := AllSources(services[..i]);
      var items := ItemsOf(services[i].1);
      assert items[..0] == [] && before + [] == before;
      for j := 0 to |items|
        invariant refs == Once(before + NamedSources(items[..j]))
      {
        SourcesStep(items, j);
        var source := VolumeSource(items[j]);
        ghost var now := before + NamedSources(items[..j]);
        if source.Some? && IsVolumeName(source.value) {
          assert before + NamedSources(items[..j + 1]) == now + [source.value];
          OnceSnoc(now, source.value);
          if source.value !in refs { refs := refs + [source.value]; }
        } else {
          assert before + NamedSources(items[..j + 1]) == now;
        }
      }
      assert items[..|items|] == items;
      AllSourcesStep(services, i);
    }
    assert services[..|services|] == services;
  }

  function ItemsOf(service: Node): seq<Node> {
    if service.Map? then
      var v := Find(service.pairs, VOLUMES);
      if v.Some? && v.value.Seq? then v.value.items else []
    else []
  }

  lemma {:induction false} NoSources()
    ensures Once(AllSources([])) == [] && NamedSources([]) == []
  {}

  lemma {:induction false} AllSourcesStep(services: Pairs, i: nat)
    requires i < |services|
    ensures AllSources(services[..i + 1]) == AllSources(services[..i]) + NamedSources(ItemsOf(services[i].1))
  {
    assert services[..i + 1] == services[..i] + [services[i]];
    AllSourcesConcat(services[..i], [services[i]]);
    assert [services[i]][1..] == [] && AllSources([]) == [];
    assert ServiceSources(services[i].1) == NamedSources(ItemsOf(services[i].1));
  }

  /** The references are those of some service's volumes, whatever the order. */
  lemma {:induction false} RefsAre(top: Pairs, r: string)
    requires Unique(MapAt(top, SERVICES))
    ensures r in Refs(top) <==>
      exists n :: Has(MapAt(top, SERVICES), n) && r in ServiceSources(Find(MapAt(top, SERVICES), n).value)
  {
    var services := MapAt(top, SERVICES);
    var object' := FromEntries(services);
    FromEntriesOrdered(services);
    OrderedUnique(object');
    SourcesIn(object', r);
    hide Once, AllSources, ServiceSources, SERVICES, FromEntries, Find, Has;
    forall n ensures Find(object', n) == Find(services, n) && (Has(object', n) <==> Has(services, n)) {
      FindFromEntries(services, n);
      FoundIsHad(object', n);
      FoundIsHad(services, n);
    }
    assert r in Refs(top) <==> r in AllSources(object') by { RefsOnce(top, r); }
  }

  /** An item of a volumes list that names volume r: in short syntax before the first colon,
      in long syntax as the source of a volume, which is the kind when none is given. */
  ghost predicate Names(item: Node, r: string) {
    match item
    case Str(s) => ':' !in r && (s == r || exists rest :: s == r + ":" + rest)
    case Map(ps) =>
      && Find(ps, "type") in {None, Some(Null), Some(Str("volume"))}
      && Find(ps, "source") == Some(Str(r))
    case _ => false
  }

  /** A service refers to the volumes its list names, of those that can be names. */
  lemma {:induction false} ServiceRefers(service: Node, r: string)
    ensures r in ServiceSources(service) <==>
      && service.Map? && Find(service.pairs, "volumes").Some? && Find(service.pairs, "volumes").value.Seq?
      && IsVolumeName(r) && exists item :: item in Find(service.pairs, "volumes").value.items && Names(item, r)
  {
    if service.Map? && Find(service.pairs, "volumes").Some? && Find(service.pairs, "volumes").value.Seq? {
      ItemsRefer(Find(service.pairs, "volumes").value.items, r);
    }
  }

  lemma {:induction false} ItemsRefer(items: seq<Node>, r: string)
    ensures r in NamedSources(items) <==> IsVolumeName(r) && exists item :: item in items && Names(item, r)
  {
    hide VolumeSource, IsVolumeName, Names;
    if items != [] {
      ItemsRefer(items[1..], r);
      if IsVolumeName(r) { ItemRefers(items[0], r); }
      assert items == [items[0]] + items[1..];
    }
  }

  lemma {:induction false} ItemRefers(item: Node, r: string)
    requires IsVolumeName(r)
    ensures VolumeSource(item) == Some(r) <==> Names(item, r)
  {
    if item.Str? { FirstPart(item.text, r); }
  }

  lemma {:induction false} FirstPart(s: string, r: string)
    ensures Split(s, ':')[0] == r <==> ':' !in r && (s == r || exists rest :: s == r + ":" + rest)
  {
    if ':' !in r {
      if s == r { SplitSingle(r, ':'); }
      forall rest | s == r + ":" + rest ensures Split(s, ':')[0] == r { SplitCons(r, rest, ':'); }
    }
    if Split(s, ':')[0] == r {
      var parts := Split(s, ':');
      JoinOfSplit(s, ':');
      if |parts| == 1 {
        assert s == r;
      } else {
        assert s == r + ":" + Join(parts[1..], ":");
      }
    }
  }

  lemma {:induction false} RefsOnce(top: Pairs, r: string)
    ensures r in Refs(top) <==> r in AllSources(FromEntries(MapAt(top, SERVICES)))
  {}

  lemma {:induction false} OrderedUnique(ps: Pairs)
    requires JsOrdered(ps)
    ensures Unique(ps)
  {}

  lemma {:induction false} SourcesIn(services: Pairs, r: string)
    requires Unique(services)
    ensures r in AllSources(services) <==> exists n :: Has(services, n) && r in ServiceSources(Find(services, n).value)
  {
    if services != [] {
      var p, tail := services[0], services[1..];
      assert services == [p] + tail;
      UniqueTail(services);
      SourcesIn(tail, r);
      hide ServiceSources;
      forall n ensures Find(services, n) == (if n == p.0 then Some(p.1) else Find(tail, n))
        && (Has(services, n) <==> n == p.0 || Has(tail, n)) {
        FindCons(p, tail, n);
        HasTail(services, n);
      }
      hide Find, Has, Unique;
      if r in ServiceSources(p.1) {
        assert Has(services, p.0) && Find(services, p.0).value == p.1;
      } else if exists n :: Has(tail, n) && r in ServiceSources(Find(tail, n).value) {
        var n :| Has(tail, n) && r in ServiceSources(Find(tail, n).value);
        assert n != p.0;
        assert Has(services, n) && Find(services, n) == Find(tail, n);
      }
    }
  }

  // ── Dropping stale declarations ─────────────────────────────────────────────

  /** Not dropped by the first i declarations. */
  ghost predicate Alive(p: (string, Node), declared: Pairs, i: nat, refs: seq<string>) {
    forall j :: 0 <= j < i && j < |declared| && declared[j].0 == p.0 ==> Stays(declared[j], refs)
  }

  lemma {:induction false} AliveStep(all: Pairs, declared: Pairs, i: nat, refs: seq<string>)
    requires i < |declared|
    ensures var f := Filter(all, (p: (string, Node)) => Alive(p, declared, i, refs));
            Filter(all, (p: (string, Node)) => Alive(p, declared, i + 1, refs)) == if Stays(declared[i], refs) then f
              else Drop(f, declared[i].0)
  {
    hide Stays;
    var now, next := (p: (string, Node)) => Alive(p, declared, i, refs),
      (p: (string, Node)) => Alive(p, declared, i + 1, refs);
    var f := Filter(all, now);
    if Stays(declared[i], refs) {
      FilterSame(all, now, next);
    } else {
      DropIsFilter(f, declared[i].0);
      FilterTwice(all, now, (p: (string, Node)) => p.0 != declared[i].0, next);
    }
  }

  lemma {:induction false} AliveEnd(declared: Pairs, more: Pairs, refs: seq<string>)
    requires Unique(declared + more) && forall p :: p in more ==> p.0 in refs
    ensures Filter(declared + more, (p: (string, Node)) => Alive(p, declared, |declared|, refs))
      == Filter(declared + more, (p: (string, Node)) => Stays(p, refs))
  {
    var all := declared + more;
    forall p | p in all ensures Alive(p, declared, |declared|, refs) <==> Stays(p, refs) {
      var k :| 0 <= k < |all| && all[k] == p;
      forall j | 0 <= j < |declared| && declared[j].0 == p.0 ensures j == k && declared[j] == p {
        assert all[j] == declared[j];
      }
      if k < |declared| { assert declared[k] == p; } else { assert p == more[k - |declared|] && p in more; }
    }
    FilterSame(all, (p: (string, Node)) => Alive(p, declared, |declared|, refs), (p: (string, Node)) => Stays(p, refs));
  }

  /** Deletes from all, one by one, HSI's declarations that nothing references. */
  method DropStale(declared: Pairs, ghost more: Pairs, all: Pairs, refs: seq<string>) returns (vols: Pairs)
    requires all == declared + more && Unique(all) && forall p :: p in more ==> p.0 in refs
    ensures vols == Filter(all, (p: (string, Node)) => Stays(p, refs))
  {
    hide Alive, Stays, Unique;
    vols := all;
    AliveStart(all, declared, refs);
    for i := 0 to |declared|
      invariant vols == Filter(all, (p: (string, Node)) => Alive(p, declared, i, refs))
    {
      AliveStep(all, declared, i, refs);
      if !Stays(declared[i], refs) { vols := Drop(vols, declared[i].0); }
    }
    AliveEnd(declared, more, refs);
  }

  lemma {:induction false} AliveStart(all: Pairs, declared: Pairs, refs: seq<string>)
    ensures Filter(all, (p: (string, Node)) => Alive(p, declared, 0, refs)) == all
  {
    FilterAll(all, (p: (string, Node)) => Alive(p, declared, 0, refs));
  }

  method MissingNames(refs: seq<string>, declared: Pairs) returns (missing: seq<string>)
    ensures missing == Filter(refs, (r: string) => !InObject(r, declared))
  {
    hide InObject;
    var keep := (r: string) => !InObject(r, declared);
    missing := [];
    assert refs[..0] == [] && Filter([], keep) == [];
    for i := 0 to |refs|
      invariant missing == Filter(refs[..i], keep)
    {
      assert refs[..i + 1] == refs[..i] + [refs[i]];
      FilterConcat(refs[..i], [refs[i]], keep);
      FilterCons(refs[i], [], keep);
      assert [refs[i]] + [] == [refs[i]];
      if !InObject(refs[i], declared) { missing := missing + [refs[i]]; } else { assert missing + [] == missing; }
    }
    assert refs[..|refs|] == refs;
  }

  method AddDeclarations(declared: Pairs, missing: seq<string>) returns (vols: Pairs)
    requires Unique(declared + Declarations(missing))
    ensures vols == declared + Declarations(missing)
  {
    vols := declared;
    var all := declared + Declarations(missing);
    assert Declarations(missing[..0]) == [];
    for i := 0 to |missing|
      invariant vols == declared + Declarations(missing[..i])
    {
      assert Declarations(missing[..i + 1]) == Declarations(missing[..i]) + [(missing[i], Declaration(missing[i]))];
      assert vols == all[..|declared| + i] && all[|declared| + i].0 == missing[i];
      assert !Has(vols, missing[i]);
      PutNew(vols, missing[i], Declaration(missing[i]));
      vols := Put(vols, missing[i], Declaration(missing[i]));
    }
    assert missing[..|missing|] == missing;
  }

  lemma {:induction false} MissingReferenced(top: Pairs)
    ensures forall p :: p in Declarations(Missing(top)) ==> p.0 in Refs(top)
  {
    MissingUnique(top);
    var missing := Missing(top);
    hide Missing, Refs;
    forall p | p in Declarations(missing) ensures p.0 in Refs(top) {
      var i :| 0 <= i < |missing| && Declarations(missing)[i] == p;
      assert missing[i] in missing;
    }
  }

  class Document {
    /** The top-level pairs. */
    var contents: Pairs

    constructor (contents: Pairs)
      ensures this.contents == contents
    {
      this.contents := contents;
    }

    /** The map at a key, made when there is none. */
    method EnsureMap(key: string) returns (ps: Pairs)
      modifies this
      ensures ps == MapAt(old(contents), key)
      ensures contents == if IsMapAt(old(contents), key) then old(contents) else Put(old(contents), key, Map([]))
    {
      if !IsMapAt(contents, key) {
        contents := Put(contents, key, Map([]));
        return [];
      }
      ps := MapAt(contents, key);
    }

    /** Moves a volumes section made at the end before the services. */
    method PlaceVolumes()
      modifies this
      ensures contents == Placed(old(contents))
    {
      hide VOLUMES, SERVICES;
      var v, s := Position(contents, VOLUMES), Position(contents, SERVICES);
      if s < |contents| && v < |contents| && v > s {
        var moved := contents[v];
        var items := contents[..v] + contents[v + 1..];
        assert items[..s] == contents[..s] && items[s..] == contents[s..v] + contents[v + 1..];
        contents := items[..s] + [moved] + items[s..];
        assert contents == old(contents)[..s] + [moved] + old(contents)[s..v] + old(contents)[v + 1..];
      }
    }

    /** syncVolumeDeclarations. */
    method SyncVolumeDeclarations()
      requires Unique(MapAt(contents, VOLUMES))
      modifies this
      ensures contents == Synced(old(contents))
    {
      ghost var top := contents;
      var refs := NamedVolumeRefs(contents);
      var declared := MapAt(contents, VOLUMES);
      var missing := MissingNames(refs, declared);
      DeclaredUnique(top);
      MissingReferenced(top);
      assert missing == Missing(top);
      hide VOLUMES, SERVICES, Missing, Refs, Placed, MapAt, IsMapAt, Unique;
      if missing != [] {
        if !IsMapAt(contents, VOLUMES) {
          contents := Put(contents, VOLUMES, Map([]));
          PlaceVolumes();
        }
        var vols := AddDeclarations(declared, missing);
        contents := Put(contents, VOLUMES, Map(vols));
      }
      assert contents == WithDeclarations(top);
      FindDeclared(top, VOLUMES);
      AllDeclared(top);
      if IsMapAt(contents, VOLUMES) {
        var all := MapAt(contents, VOLUMES);
        var kept := DropStale(declared, Declarations(missing), all, refs);
        contents := if kept == [] then Drop(contents, VOLUMES) else Put(contents, VOLUMES, Map(kept));
      }
    }

    /** applyModel. */
    method ApplyModel(x: App)
      requires Unique(MapAt(contents, VOLUMES))
      modifies this
      ensures contents == Applied(old(contents), x)
    {
      ghost var top := contents;
      hide VOLUMES, SERVICES, NETWORKS, Unique, NewService, Synced;
      if x.networkNames != [] { AddExternalNetworks(x.networkNames); }
      assert contents == WithNetworks(top, x.networkNames);
      WriteService(x);
      WrittenVolumes(top, x);
      SyncVolumeDeclarations();
    }

    method AddExternalNetworks(names: seq<string>)
      requires names != []
      modifies this
      ensures contents == WithNetworks(old(contents), names)
    {
      hide NETWORKS;
      var nets := EnsureMap(NETWORKS);
      ghost var first := nets;
      PutTwice(old(contents), NETWORKS, Map([]), Map(AddNetworks(first, names)));
      assert names[0..] == names;
      for i := 0 to |names|
        invariant AddNetworks(nets, names[i..]) == AddNetworks(first, names)
        invariant contents == if IsMapAt(old(contents), NETWORKS) then old(contents)
          else Put(old(contents), NETWORKS, Map([]))
      {
        assert names[i..][0] == names[i] && names[i..][1..] == names[i + 1..];
        if !Has(nets, names[i]) { nets := Put(nets, names[i], ExternalNetwork(names[i])); }
      }
      assert names[|names|..] == [];
      contents := Put(contents, NETWORKS, Map(nets));
    }

    method WriteService(x: App)
      modifies this
      ensures contents == WithService(old(contents), x)
    {
      hide SERVICES, ORDER, Settings, XHsi, Unknown, Somes;
      var services := EnsureMap(SERVICES);
      var service := MapAt(services, x.name);
      var xhsi := NewXHsi(x, service);
      SettingsSettled(x, xhsi);
      var rewritten := RewriteService(service, Settings(x, xhsi));
      PutTwice(old(contents), SERVICES, Map([]), Map(Put(services, x.name, Map(rewritten))));
      contents := Put(contents, SERVICES, Map(Put(services, x.name, Map(rewritten))));
    }

    /** generateComposeYaml, into this document; false, and nothing written, when a volume
        is still a place. */
    method Generate(x: App) returns (ok: bool)
      requires Unique(MapAt(contents, VOLUMES))
      modifies this
      ensures ok <==> forall v :: v in x.volumes ==> !v.kind.Place?
      ensures contents == if ok then Applied(old(contents), x) else old(contents)
      ensures ok ==> forall n :: n in Refs(contents) && !Has(MapAt(old(contents), "volumes"), n) && n !in INHERITED ==>
        Find(MapAt(contents, "volumes"), n) == Some(Map([("name", Str(n))]))
      ensures ok ==> forall n :: Has(MapAt(old(contents), "volumes"), n) && !Has(MapAt(contents, "volumes"), n) ==>
        n !in Refs(contents) && Find(MapAt(old(contents), "volumes"), n) == Some(Map([("name", Str(n))]))
      ensures ok ==> forall n :: n in x.networkNames && !Has(MapAt(old(contents), "networks"), n) ==>
        Find(MapAt(contents, "networks"), n) == Some(Map([("external", Bool(true)), ("name", Str(n))]))
    {
      hide Applied, Refs, INHERITED;
      for i := 0 to |x.volumes|
        invariant contents == old(contents) && forall k :: 0 <= k < i ==> !x.volumes[k].kind.Place?
      {
        if x.volumes[i].kind.Place? {
          assert x.volumes[i] in x.volumes;
          return false;
        }
      }
      ghost var top := contents;
      ApplyModel(x);
      ok := true;
      forall n
        ensures n in Refs(contents) && !Has(MapAt(top, "volumes"), n) && n !in INHERITED ==>
          Find(MapAt(contents, "volumes"), n) == Some(Map([("name", Str(n))]))
        ensures Has(MapAt(top, "volumes"), n) && !Has(MapAt(contents, "volumes"), n) ==>
          n !in Refs(contents) && Find(MapAt(top, "volumes"), n) == Some(Map([("name", Str(n))]))
      {
        VolumesPinned(top, x, n);
        FoundIsHad(MapAt(top, "volumes"), n);
        FoundIsHad(MapAt(contents, "volumes"), n);
      }
      forall n | n in x.networkNames && !Has(MapAt(top, "networks"), n)
        ensures Find(MapAt(contents, "networks"), n) == Some(Map([("external", Bool(true)), ("name", Str(n))]))
      {
        NetworksPinned(top, x, n);
        FoundIsHad(MapAt(top, "networks"), n);
      }
    }

    /** repairNamedVolumeDeclarations: whether the file needed a change. */
    method Repair() returns (changed: bool)
      requires Unique(MapAt(contents, VOLUMES))
      modifies this
      ensures contents == Synced(old(contents)) && Synced(contents) == contents
      ensures changed <==> contents != old(contents)
    {
      hide Unique, Synced;
      var before := contents;
      SyncTwice(contents);
      SyncVolumeDeclarations();
      changed := contents != before;
    }
  }

  lemma {:induction false} AllDeclared(top: Pairs)
    ensures IsMapAt(WithDeclarations(top), VOLUMES) ==>
      MapAt(WithDeclarations(top), VOLUMES) == MapAt(top, VOLUMES) + Declarations(Missing(top))
  {
    FindDeclared(top, VOLUMES);
    hide WithDeclarations, Missing;
    if Missing(top) == [] { assert MapAt(top, VOLUMES) + Declarations([]) == MapAt(top, VOLUMES); }
  }

  lemma {:induction false} WrittenVolumes(top: Pairs, x: App)
    ensures MapAt(WithService(WithNetworks(top, x.networkNames), x), VOLUMES) == MapAt(top, VOLUMES)
  {
    SectionsDistinct();
    FindWritten(top, x, VOLUMES);
    assert Written(top, x) == WithService(WithNetworks(top, x.networkNames), x);
    hide WithService, WithNetworks, Written, VOLUMES, SERVICES, NETWORKS;
  }
}
