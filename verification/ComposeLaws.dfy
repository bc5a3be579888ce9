/** What writing a model into a Compose file keeps, adds and removes. */
module ComposeLaws {
  import opened Text
  import opened StableSort
  import opened YamlTree
  import opened Compose

  // ── Filtering pairs ─────────────────────────────────────────────────────────

  lemma {:induction false} UniqueTail(ps: Pairs)
    requires Unique(ps) && ps != []
    ensures Unique(ps[1..]) && !Has(ps[1..], ps[0].0)
  {
    assert forall i :: 0 <= i < |ps[1..]| ==> ps[1..][i] == ps[i + 1];
  }

  lemma {:induction false} FindFilter(ps: Pairs, keep: ((string, Node)) -> bool, k: string)
    requires Unique(ps)
    ensures Find(Filter(ps, keep), k) == if Has(ps, k) && keep((k, Find(ps, k).value)) then Find(ps, k) else None
  {
    if ps != [] {
      var p, tail := ps[0], ps[1..];
      assert ps == [p] + tail;
      UniqueTail(ps);
      FindFilter(tail, keep, k);
      FilterCons(p, tail, keep);
      HasTail(ps, k);
      FindCons(p, Filter(tail, keep), k);
      assert p == (p.0, p.1);
    }
  }

  /** A filter that only looks at keys needs no uniqueness. */
  lemma {:induction false} FindKeyFilter(ps: Pairs, keep: ((string, Node)) -> bool, k: string)
    requires forall v, w :: keep((k, v)) <==> keep((k, w))
    ensures Find(Filter(ps, keep), k) == if keep((k, Null)) then Find(ps, k) else None
  {
    if ps != [] {
      var p, tail := ps[0], ps[1..];
      assert ps == [p] + tail;
      FindKeyFilter(tail, keep, k);
      FilterCons(p, tail, keep);
      FindCons(p, Filter(tail, keep), k);
      assert p == (p.0, p.1);
    }
  }

  /** q can come after p in an object. */
  predicate After(p: (string, Node), q: (string, Node)) {
    q.0 != p.0 && (IndexLike(q.0) ==> IndexLike(p.0) && Index(p.0) < Index(q.0))
  }

  lemma {:induction false} ConsOrdered(p: (string, Node), ps: Pairs)
    requires JsOrdered(ps) && forall q :: q in ps ==> After(p, q)
    ensures JsOrdered([p] + ps)
  {
    hide IndexLike, Index;
    var r := [p] + ps;
    forall i, j | 0 <= i < j < |r| ensures After(r[i], r[j]) {
      assert r[j] == ps[j - 1] && ps[j - 1] in ps;
      if i > 0 { assert r[i] == ps[i - 1]; }
    }
  }

  lemma {:induction false} OrderedHead(ps: Pairs)
    requires JsOrdered(ps) && ps != []
    ensures JsOrdered(ps[1..]) && forall q :: q in ps[1..] ==> After(ps[0], q)
  {
    hide IndexLike, Index;
    forall q | q in ps[1..] ensures After(ps[0], q) {
      var i :| 0 <= i < |ps[1..]| && ps[1..][i] == q;
      assert ps[i + 1] == q;
    }
    OrderedTail(ps);
  }

  lemma {:induction false} FilterUnique(ps: Pairs, keep: ((string, Node)) -> bool)
    requires JsOrdered(ps)
    ensures JsOrdered(Filter(ps, keep))
    ensures forall p :: p in Filter(ps, keep) ==> p in ps
  {
    if ps != [] {
      var p, tail := ps[0], ps[1..];
      OrderedHead(ps);
      FilterUnique(tail, keep);
      assert ps == [p] + tail;
      FilterCons(p, tail, keep);
      var f := Filter(tail, keep);
      hide Filter, After, JsOrdered;
      if keep(p) { ConsOrdered(p, f); }
    }
  }

  lemma {:induction false} OrderedTail(ps: Pairs)
    requires JsOrdered(ps) && ps != []
    ensures JsOrdered(ps[1..])
  {
    hide IndexLike, Index;
    assert forall i :: 0 <= i < |ps[1..]| ==> ps[1..][i] == ps[i + 1];
  }

  // ── Declared volumes ────────────────────────────────────────────────────────

  lemma {:induction false} CutFour<T>(ps: seq<T>, s: nat, v: nat)
    requires s <= v < |ps|
    ensures ps == ps[..s] + ps[s..v] + [ps[v]] + ps[v + 1..]
    ensures forall i :: 0 <= i < v - s ==> ps[s..v][i] == ps[s + i]
  {}

  /** What comes between the two sections changes places with the later one. */
  lemma {:induction false} PlacedParts(ps: Pairs, s: nat, v: nat)
    requires s == Position(ps, SERVICES) && v == Position(ps, VOLUMES) && s < v < |ps|
    ensures Placed(ps) == ps[..s] + [ps[v]] + ps[s..v] + ps[v + 1..]
    ensures ps == ps[..s] + ps[s..v] + [ps[v]] + ps[v + 1..]
    ensures !Has(ps[s..v], VOLUMES) && ps[v].0 == VOLUMES
  {
    hide Find, VOLUMES, SERVICES;
    CutFour(ps, s, v);
  }

  /** Moving the volumes section changes no value. */
  lemma {:induction false} FindPlaced(ps: Pairs, k: string)
    ensures Find(Placed(ps), k) == Find(ps, k)
  {
    var v, s := Position(ps, VOLUMES), Position(ps, SERVICES);
    if s < v < |ps| {
      var a, b, m, c := ps[..s], ps[s..v], [ps[v]], ps[v + 1..];
      PlacedParts(ps, s, v);
      hide Find, Has, Placed, Position, VOLUMES, SERVICES;
      FindFour(a, b, m, c, k);
      FindFour(a, m, b, c, k);
      OneFind(ps[v], k);
    }
  }

  lemma {:induction false} FindFour(a: Pairs, b: Pairs, c: Pairs, d: Pairs, k: string)
    ensures Find(a + b + c + d, k) == if Has(a, k) then Find(a, k) else if Has(b, k) then Find(b, k)
      else if Has(c, k) then Find(c, k) else Find(d, k)
  {
    hide Find, Has;
    FindConcat(a + b + c, d, k);
    FindConcat(a + b, c, k);
    FindConcat(a, b, k);
    HasParts(a + b, c, k);
    HasParts(a, b, k);
  }

  lemma {:induction false} FindDeclared(top: Pairs, k: string)
    ensures k != VOLUMES ==> Find(WithDeclarations(top), k) == Find(top, k)
    ensures Find(WithDeclarations(top), VOLUMES) == if Missing(top) == [] then Find(top, VOLUMES)
      else Some(Map(MapAt(top, VOLUMES) + Declarations(Missing(top))))
  {
    var missing := Missing(top);
    if missing != [] {
      var place := if IsMapAt(top, VOLUMES) then top else Placed(Put(top, VOLUMES, Map([])));
      var all := Map(MapAt(top, VOLUMES) + Declarations(missing));
      hide Missing, Placed, Find, VOLUMES;
      FindPlaced(Put(top, VOLUMES, Map([])), k);
      FindPut(top, VOLUMES, Map([]), k);
      FindPut(place, VOLUMES, all, k);
      FindPut(place, VOLUMES, all, VOLUMES);
    }
  }

  lemma {:induction false} FindStale(top: Pairs, refs: seq<string>, k: string)
    ensures k != VOLUMES ==> Find(WithoutStale(top, refs), k) == Find(top, k)
    ensures IsMapAt(top, VOLUMES) ==>
      MapAt(WithoutStale(top, refs), VOLUMES) == Filter(MapAt(top, VOLUMES), (p: (string, Node)) => Stays(p, refs))
    ensures !IsMapAt(top, VOLUMES) ==> WithoutStale(top, refs) == top
    ensures IsMapAt(WithoutStale(top, refs), VOLUMES) ==> MapAt(WithoutStale(top, refs), VOLUMES) != []
  {
    if IsMapAt(top, VOLUMES) {
      var kept := Filter(MapAt(top, VOLUMES), (p: (string, Node)) => Stays(p, refs));
      hide Stays, Filter, VOLUMES;
      FindDrop(top, VOLUMES, k);
      FindDrop(top, VOLUMES, VOLUMES);
      FindPut(top, VOLUMES, Map(kept), k);
      FindPut(top, VOLUMES, Map(kept), VOLUMES);
    }
  }

  /** Declaring volumes touches no other section. */
  lemma {:induction false} SyncKeepsOthers(top: Pairs, k: string)
    requires k != VOLUMES
    ensures Find(Synced(top), k) == Find(top, k)
  {
    hide WithDeclarations, WithoutStale, Refs, Find, VOLUMES;
    FindDeclared(top, k);
    FindStale(WithDeclarations(top), Refs(top), k);
  }

  lemma {:induction false} FindDeclaration(names: seq<string>, n: string)
    ensures Find(Declarations(names), n) == if n in names then Some(Declaration(n)) else None
  {
    if names != [] {
      var tail := names[1..];
      assert Declarations(names) == [(names[0], Declaration(names[0]))] + Declarations(tail);
      FindCons((names[0], Declaration(names[0])), Declarations(tail), n);
      FindDeclaration(tail, n);
      assert n in names <==> n == names[0] || n in tail;
    }
  }

  lemma {:induction false} DeclaredUnique(top: Pairs)
    requires Unique(MapAt(top, VOLUMES))
    ensures Unique(MapAt(top, VOLUMES) + Declarations(Missing(top)))
  {
    var a, names := MapAt(top, VOLUMES), Missing(top);
    MissingUnique(top);
    hide Missing, MapAt, VOLUMES;
    var all := a + Declarations(names);
    forall i, j | 0 <= i < j < |all| ensures all[i].0 != all[j].0 {
      if i < |a| <= j {
        var n := names[j - |a|];
        assert n in names;
        assert !Has(a, n);
        assert a[i] == all[i];
      }
    }
  }

  lemma {:induction false} MissingUnique(top: Pairs)
    ensures forall i, j :: 0 <= i < j < |Missing(top)| ==> Missing(top)[i] != Missing(top)[j]
    ensures forall n :: n in Missing(top) <==> n in Refs(top) && !Has(MapAt(top, VOLUMES), n) && n !in INHERITED
  {
    var refs := Refs(top);
    assert forall i, j :: 0 <= i < j < |refs| ==> refs[i] != refs[j];
    hide Refs, INHERITED, VOLUMES;
    FilterStrings(refs, (r: string) => !InObject(r, MapAt(top, VOLUMES)));
  }

  lemma {:induction false} FilterStrings(xs: seq<string>, keep: string -> bool)
    requires forall i, j :: 0 <= i < j < |xs| ==> xs[i] != xs[j]
    ensures forall i, j :: 0 <= i < j < |Filter(xs, keep)| ==> Filter(xs, keep)[i] != Filter(xs, keep)[j]
  {
    if xs != [] {
      var tail := Filter(xs[1..], keep);
      assert forall i :: 0 <= i < |xs[1..]| ==> xs[1..][i] == xs[i + 1];
      FilterStrings(xs[1..], keep);
      var f := Filter(xs, keep);
      assert f == if keep(xs[0]) then [xs[0]] + tail else tail;
      hide Filter;
      forall j | 0 <= j < |tail| ensures tail[j] != xs[0] {
        assert tail[j] in tail && tail[j] in xs[1..];
        var i :| 0 <= i < |xs[1..]| && xs[1..][i] == tail[j];
      }
    }
  }

  /** Which names are declared after, and how: a referenced one is declared unless it
      already was, or JavaScript takes it for a property every object has; one HSI had
      declared and nothing references any more is gone; the others are as they were. */
  lemma {:induction false} SyncVolumes(top: Pairs, n: string)
    requires Unique(MapAt(top, VOLUMES))
    ensures var was := Find(MapAt(top, VOLUMES), n);
            Find(MapAt(Synced(top), VOLUMES), n) ==
              if was.Some? then (if n in Refs(top) || was.value != Declaration(n) then was else None)
              else if n in Refs(top) && n !in INHERITED then Some(Declaration(n))
              else None
  {
    var refs, missing, declared := Refs(top), Missing(top), MapAt(top, VOLUMES);
    var mid := WithDeclarations(top);
    var all := declared + Declarations(missing);
    DeclaredUnique(top);
    MissingUnique(top);
    FindDeclared(top, n);
    FindStale(mid, refs, n);
    assert MapAt(mid, VOLUMES) == all;
    FindConcat(declared, Declarations(missing), n);
    FindDeclaration(missing, n);
    hide WithDeclarations, WithoutStale, Refs, Missing, VOLUMES, INHERITED, Declarations;
    FindFilter(all, (p: (string, Node)) => Stays(p, refs), n);
  }

  /** The volumes section is dropped rather than left empty. */
  lemma {:induction false} SyncLeavesNoEmptySection(top: Pairs)
    ensures IsMapAt(Synced(top), VOLUMES) ==> MapAt(Synced(top), VOLUMES) != []
  {
    hide WithDeclarations, WithoutStale, Refs, MapAt, IsMapAt;
    FindStale(WithDeclarations(top), Refs(top), VOLUMES);
  }

  lemma {:induction false} SyncRefs(top: Pairs)
    ensures Refs(Synced(top)) == Refs(top)
  {
    SectionsDistinct();
    hide Synced, Once, AllSources, FromEntries, SERVICES, VOLUMES;
    SyncKeepsOthers(top, SERVICES);
  }

  /** Declaring volumes a second time changes nothing. */
  lemma {:induction false} SyncTwice(top: Pairs)
    requires Unique(MapAt(top, VOLUMES))
    ensures Synced(Synced(top)) == Synced(top)
  {
    var once, refs := Synced(top), Refs(top);
    SyncRefs(top);
    NothingMissing(top);
    assert WithDeclarations(once) == once;
    var mid := WithDeclarations(top);
    hide WithDeclarations, Refs, Missing, VOLUMES;
    FindStale(mid, refs, VOLUMES);
    if IsMapAt(once, VOLUMES) {
      var ps := MapAt(once, VOLUMES);
      assert Find(once, VOLUMES) == Some(Map(ps));
      assert IsMapAt(mid, VOLUMES);
      var keep := (p: (string, Node)) => Stays(p, refs);
      assert ps == Filter(MapAt(mid, VOLUMES), keep);
      FilterAll(ps, keep);
      PutTwice(once, VOLUMES, Map(ps), Map(ps));
    }
  }

  lemma {:induction false} NothingMissing(top: Pairs)
    requires Unique(MapAt(top, VOLUMES))
    ensures Missing(Synced(top)) == []
  {
    SyncRefs(top);
    MissingUnique(Synced(top));
    var missing := Missing(Synced(top));
    if missing != [] {
      var n := missing[0];
      assert n in missing;
      SyncVolumes(top, n);
      assert false;
    }
  }

  // ── The service ─────────────────────────────────────────────────────────────

  ghost predicate Settled(settings: seq<(string, Option<Node>)>) {
    |settings| == |ORDER| && forall i :: 0 <= i < |settings| ==> settings[i].0 == ORDER[i]
  }

  lemma {:induction false} SettingsSettled(x: App, xhsi: Pairs)
    ensures Settled(Settings(x, xhsi))
  {
    hide TextNode, OptText, ListNode, ObjectNode, PortStr, VolumeStr, HostEntry, Each;
  }

  lemma {:induction false} SomesKeys(settings: seq<(string, Option<Node>)>)
    ensures forall p :: p in Somes(settings) ==>
      exists i :: 0 <= i < |settings| && settings[i].0 == p.0 && settings[i].1 == Some(p.1)
  {
    if settings != [] {
      var tail := settings[1..];
      SomesKeys(tail);
      forall p | p in Somes(settings) ensures exists i ::
        0 <= i < |settings| && settings[i].0 == p.0 && settings[i].1 == Some(p.1) {
        if p in Somes(tail) {
          var i :| 0 <= i < |tail| && tail[i].0 == p.0 && tail[i].1 == Some(p.1);
          assert settings[i + 1] == tail[i];
        } else {
          assert settings[0].0 == p.0 && settings[0].1 == Some(p.1);
        }
      }
    }
  }

  lemma {:induction false} FindSomes(settings: seq<(string, Option<Node>)>, j: nat)
    requires j < |settings| && forall i, k :: 0 <= i < k < |settings| ==> settings[i].0 != settings[k].0
    ensures Find(Somes(settings), settings[j].0) == settings[j].1
  {
    var tail := settings[1..];
    assert forall i :: 0 <= i < |tail| ==> tail[i] == settings[i + 1];
    var first: Pairs := if settings[0].1.Some? then [(settings[0].0, settings[0].1.value)] else [];
    assert Somes(settings) == first + Somes(tail);
    FindConcat(first, Somes(tail), settings[j].0);
    if settings[0].1.Some? { OneFind((settings[0].0, settings[0].1.value), settings[j].0); }
    if j == 0 {
      if Has(Somes(tail), settings[0].0) {
        var i :| 0 <= i < |Somes(tail)| && Somes(tail)[i].0 == settings[0].0;
        SomesKeys(tail);
        assert Somes(tail)[i] in Somes(tail);
        assert false;
      }
      assert Find(Somes(tail), settings[0].0) == None;
    } else {
      FindSomes(tail, j - 1);
    }
  }

  lemma {:induction false} UnknownLacks(service: Pairs, key: string)
    requires key in ORDER
    ensures !Has(Unknown(service), key)
  {
    hide ORDER;
    var u := Unknown(service);
    forall i | 0 <= i < |u| ensures u[i].0 != key {
      assert u[i] in u;
      assert Unmanaged(u[i]);
    }
  }

  /** A managed key has the value the model gives it. */
  lemma {:induction false} FindSetting(x: App, service: Pairs, j: nat)
    requires j < |ORDER|
    ensures Find(NewService(x, service), ORDER[j]) == Settings(x, XHsi(x, service))[j].1
  {
    OrderDistinct();
    var settings := Settings(x, XHsi(x, service));
    SettingsSettled(x, XHsi(x, service));
    assert ORDER[j] in ORDER;
    UnknownLacks(service, ORDER[j]);
    hide ORDER, Settings, XHsi, Unknown;
    FindConcat(Unknown(service), Somes(settings), ORDER[j]);
    FindSomes(settings, j);
  }

  lemma {:induction false} KeysInOrder(x: App, service: Pairs)
    ensures forall j :: 0 <= j < |ORDER| ==>
      Find(NewService(x, service), ORDER[j]) == Settings(x, XHsi(x, service))[j].1
  {
    hide NewService, XHsi, Find, TextNode, ListNode, ObjectNode, OptText, PortStr, VolumeStr, HostEntry;
    forall j | 0 <= j < |ORDER|
      ensures Find(NewService(x, service), ORDER[j]) == Settings(x, XHsi(x, service))[j].1
    {
      FindSetting(x, service, j);
    }
  }

  lemma {:induction false} EntryTexts(x: App)
    ensures Each(x.ports, (p: Port) => PortStr(p)) == Each(x.ports, (p: Port) =>
              Decimal(p.hostPort) + ":" + Decimal(p.containerPort) + if p.udp then "/udp" else "")
    ensures Each(x.volumes, (v: Mount) => VolumeStr(v)) == Each(x.volumes, (v: Mount) =>
              v.source + ":" + v.target + if v.readOnly then ":ro" else "")
  {
    hide Decimal;
  }

  /** Key by key, as the file spells them: what the forms hold of images, networks and
      storage, */
  lemma {:induction false} ContainerKeys(x: App, service: Pairs)
    ensures var s := NewService(x, service);
            && Find(s, "image") == TextNode(x.image) && Find(s, "container_name") == TextNode(x.name)
            && Find(s, "ports") == ListNode(Each(x.ports, (p: Port) =>
                 Decimal(p.hostPort) + ":" + Decimal(p.containerPort) + if p.udp then "/udp" else ""))
            && Find(s, "volumes") == ListNode(Each(x.volumes, (v: Mount) =>
                 v.source + ":" + v.target + if v.readOnly then ":ro" else ""))
            && Find(s, "networks") == ListNode(x.networkNames)
            && Find(s, "environment") == ObjectNode(x.envs) && Find(s, "labels") == ObjectNode(x.labels)
            && Find(s, "extra_hosts") == ObjectNode(Each(x.extraHosts, (h: string) => HostEntry(h)))
  {
    KeysInOrder(x, service);
    EntryTexts(x);
    hide NewService, XHsi, Find, TextNode, ListNode, ObjectNode, PortStr, VolumeStr, HostEntry, Each;
    assert ORDER[0] == "image" && ORDER[1] == "ports" && ORDER[2] == "environment" && ORDER[3] == "volumes";
    assert ORDER[4] == "networks" && ORDER[5] == "labels" && ORDER[8] == "extra_hosts" && ORDER[16] == "container_name";
  }

  /** and of what the container may do. A restart policy "no" is not written. */
  lemma {:induction false} LimitKeys(x: App, service: Pairs)
    ensures var s := NewService(x, service);
            && Find(s, "cap_add") == ListNode(x.capAdd) && Find(s, "cap_drop") == ListNode(x.capDrop)
            && Find(s, "restart") == (if x.restartPolicy == "no" then None else TextNode(x.restartPolicy))
            && Find(s, "hostname") == OptText(x.hostname) && Find(s, "user") == OptText(x.user)
            && Find(s, "command") == OptText(x.command) && Find(s, "mem_limit") == OptText(x.memoryLimit)
            && Find(s, "cpus") == (if x.cpuLimit.Some? then Some(Num(x.cpuLimit.value)) else None)
            && Find(s, "x-hsi") == (if XHsi(x, service) == [] then None else Some(Map(XHsi(x, service))))
  {
    KeysInOrder(x, service);
    hide NewService, XHsi, Find, TextNode, ListNode, OptText;
    assert ORDER[6] == "cap_add" && ORDER[7] == "cap_drop" && ORDER[9] == "restart" && ORDER[10] == "hostname";
    assert ORDER[11] == "user" && ORDER[12] == "command" && ORDER[13] == "cpus" && ORDER[14] == "mem_limit";
    assert ORDER[15] == "x-hsi";
  }

  /** A key the forms do not know is as it was. */
  lemma {:induction false} FindUnknown(x: App, service: Pairs, k: string)
    requires k !in ORDER
    ensures Find(NewService(x, service), k) == Find(service, k)
  {
    var settings := Settings(x, XHsi(x, service));
    SettingsSettled(x, XHsi(x, service));
    SomesKeys(settings);
    hide ORDER, Settings, XHsi;
    forall i | 0 <= i < |Somes(settings)| ensures Somes(settings)[i].0 != k {
      assert Somes(settings)[i] in Somes(settings);
      var j :| 0 <= j < |settings| && settings[j].0 == Somes(settings)[i].0;
      assert ORDER[j] in ORDER;
    }
    FindConcat(Unknown(service), Somes(settings), k);
    FindKeyFilter(service, (p: (string, Node)) => Unmanaged(p), k);
  }

  /** Those keys are also in the order they were. */
  lemma {:induction false} UnknownKept(x: App, service: Pairs)
    ensures Unknown(NewService(x, service)) == Unknown(service)
  {
    var settings := Settings(x, XHsi(x, service));
    SettingsSettled(x, XHsi(x, service));
    SomesKeys(settings);
    hide ORDER, Settings, XHsi;
    var keep := (p: (string, Node)) => Unmanaged(p);
    var u, m := Unknown(service), Somes(settings);
    FilterConcat(u, m, keep);
    FilterAll(u, keep);
    forall p | p in m ensures !keep(p) {
      var i :| 0 <= i < |settings| && settings[i].0 == p.0 && settings[i].1 == Some(p.1);
      assert ORDER[i] in ORDER;
    }
    FilterNone(m, keep);
    assert u + [] == u;
  }

  lemma {:induction false} XHsiAt(x: App, service: Pairs)
    ensures MapAt(NewService(x, service), X_HSI) == XHsi(x, service)
  {
    assert ORDER[15] == X_HSI;
    FindSetting(x, service, 15);
  }

  /** The unknown subkeys of x-hsi keep their values, but for the one that sets a prototype. */
  lemma {:induction false} XHsiKept(x: App, service: Pairs, k: string)
    requires Unique(MapAt(service, X_HSI)) && k != PINNED_URL && k != PORTS
    ensures Find(MapAt(NewService(x, service), X_HSI), k) == if k == PROTO then None else Find(MapAt(service, X_HSI), k)
  {
    XHsiAt(x, service);
    var prev := MapAt(service, X_HSI);
    FindFromEntries(prev, k);
    FindKeyFilter(FromEntries(prev), (p: (string, Node)) => CarriesOver(p), k);
    var a := Carried(service);
    var b: Pairs := if x.pinnedUrl.Some? && x.pinnedUrl.value != "" then [(PINNED_URL, Str(x.pinnedUrl.value))] else [];
    var c: Pairs := if DomainPorts(x.ports) != [] then [(PORTS, Seq(DomainPorts(x.ports)))] else [];
    assert XHsi(x, service) == a + b + c;
    if b != [] { OneFind(b[0], k); }
    if c != [] { OneFind(c[0], k); }
    hide Carried, XHsi, NewService, PINNED_URL, PORTS;
    FindConcat(a + b, c, k);
    FindConcat(a, b, k);
    HasParts(a, b, k);
  }

  lemma {:induction false} CarriedFacts(service: Pairs)
    ensures JsOrdered(Carried(service)) && forall p :: p in Carried(service) ==> CarriesOver(p)
  {
    FromEntriesOrdered(MapAt(service, X_HSI));
    FilterUnique(FromEntries(MapAt(service, X_HSI)), (p: (string, Node)) => CarriesOver(p));
  }

  lemma {:induction false} AppendOrdered(ps: Pairs, p: (string, Node))
    requires JsOrdered(ps) && !IndexLike(p.0) && forall q :: q in ps ==> q.0 != p.0
    ensures JsOrdered(ps + [p])
  {
    hide IndexLike, Index;
    var r := ps + [p];
    forall i | 0 <= i < |ps| ensures ps[i].0 != p.0 { assert ps[i] in ps; }
  }

  function PinnedPart(x: App): Pairs {
    if x.pinnedUrl.Some? && x.pinnedUrl.value != "" then [(PINNED_URL, Str(x.pinnedUrl.value))] else []
  }

  function PortsPart(x: App): Pairs { if DomainPorts(x.ports) != [] then [(PORTS, Seq(DomainPorts(x.ports)))] else [] }

  lemma {:induction false} XHsiParts(x: App, service: Pairs)
    ensures XHsi(x, service) == Carried(service) + PinnedPart(x) + PortsPart(x)
    ensures forall p :: p in PinnedPart(x) + PortsPart(x) ==> !NotOwn(p)
  {
    hide Carried, DomainPorts;
  }

  /** What x-hsi says of access, key by key: the pinned URL, and the ports with a domain. */
  lemma {:induction false} AccessKeys(x: App, service: Pairs)
    ensures var h, ports := XHsi(x, service), Filter(x.ports, (p: Port) => p.domain.Some? && p.domain.value != "");
            && Find(h, "pinnedUrl") == (if x.pinnedUrl in {None, Some("")} then None else Some(Str(x.pinnedUrl.value)))
            && Find(h, "ports") == (if ports == [] then None else Some(Seq(Each(ports, (p: Port) => AccessNode(p)))))
  {
    XHsiParts(x, service);
    var a, b, c := Carried(service), PinnedPart(x), PortsPart(x);
    forall p | p in a ensures p.0 != "pinnedUrl" && p.0 != "ports" {}
    DomainsAre(x.ports);
    hide Carried, XHsi, DomainPorts, Each;
    FindConcat(a + b, c, "pinnedUrl");
    FindConcat(a, b, "pinnedUrl");
    FindConcat(a + b, c, "ports");
    FindConcat(a, b, "ports");
  }

  ghost function AccessNode(p: Port): Node {
    Map([("containerPort", Num(p.containerPort as real)),
         ("domain", if p.domain.Some? then Str(p.domain.value) else Null), ("tls", Bool(p.tls)),
         ("publicPort", if p.publicPort.Some? then Num(p.publicPort.value as real) else Null)])
  }

  lemma {:induction false} DomainsAre(ports: seq<Port>)
    ensures DomainPorts(ports)
      == Each(Filter(ports, (p: Port) => p.domain.Some? && p.domain.value != ""), (p: Port) => AccessNode(p))
  {
    FilterSame(ports, (p: Port) => HasDomain(p), (p: Port) => p.domain.Some? && p.domain.value != "");
  }

  lemma {:induction false} XHsiOrdered(x: App, service: Pairs)
    ensures JsOrdered(XHsi(x, service))
  {
    SectionsDistinct();
    CarriedFacts(service);
    XHsiParts(x, service);
    var a, b, c := Carried(service), PinnedPart(x), PortsPart(x);
    hide Carried, XHsi, DomainPorts, IndexLike, JsOrdered;
    if b != [] {
      assert b == [b[0]] && b[0].0 == PINNED_URL;
      AppendOrdered(a, b[0]);
    } else {
      assert a + b == a;
    }
    if c != [] {
      assert c == [c[0]] && c[0].0 == PORTS;
      forall q | q in a + b ensures q.0 != PORTS {}
      AppendOrdered(a + b, c[0]);
    } else {
      assert a + b + c == a + b;
    }
  }

  lemma {:induction false} CarriedAgain(x: App, service: Pairs)
    ensures Filter(XHsi(x, service), (p: (string, Node)) => CarriesOver(p)) == Carried(service)
  {
    CarriedFacts(service);
    XHsiParts(x, service);
    var a, b := Carried(service), PinnedPart(x) + PortsPart(x);
    hide Carried, XHsi, PinnedPart, PortsPart, NotOwn, JsOrdered;
    var keep := (p: (string, Node)) => CarriesOver(p);
    assert a + PinnedPart(x) + PortsPart(x) == a + b;
    FilterConcat(a, b, keep);
    FilterAll(a, keep);
    FilterNone(b, keep);
    assert a + [] == a;
  }

  /** Written again, x-hsi is the same. */
  lemma {:induction false} XHsiTwice(x: App, service: Pairs)
    ensures XHsi(x, NewService(x, service)) == XHsi(x, service)
  {
    XHsiAt(x, service);
    XHsiOrdered(x, service);
    KeptExactly(XHsi(x, service));
    CarriedAgain(x, service);
    XHsiParts(x, service);
    XHsiParts(x, NewService(x, service));
    hide XHsi, NewService, PinnedPart, PortsPart, NotOwn, JsOrdered;
  }

  lemma {:induction false} NewServiceTwice(x: App, service: Pairs)
    ensures NewService(x, NewService(x, service)) == NewService(x, service)
  {
    UnknownKept(x, service);
    XHsiTwice(x, service);
    hide XHsi, Unknown, Settings, Somes;
  }

  // ── The document ────────────────────────────────────────────────────────────

  lemma {:induction false} FindNetworks(nets: Pairs, names: seq<string>, n: string)
    ensures Find(AddNetworks(nets, names), n) == if Has(nets, n) then Find(nets, n)
      else if n in names then Some(ExternalNetwork(n)) else None
    decreases |names|
  {
    if names != [] {
      var next := if Has(nets, names[0]) then nets else Put(nets, names[0], ExternalNetwork(names[0]));
      FindPut(nets, names[0], ExternalNetwork(names[0]), n);
      FindNetworks(next, names[1..], n);
      assert n in names <==> n == names[0] || n in names[1..];
      assert Has(next, n) <==> Find(next, n).Some?;
    }
  }

  lemma {:induction false} NetworksAgain(nets: Pairs, names: seq<string>)
    requires forall n :: n in names ==> Has(nets, n)
    ensures AddNetworks(nets, names) == nets
    decreases |names|
  {
    if names != [] {
      assert names[0] in names;
      NetworksAgain(nets, names[1..]);
    }
  }

  lemma {:induction false} FindWithNetworks(top: Pairs, names: seq<string>, k: string)
    ensures k != NETWORKS ==> Find(WithNetworks(top, names), k) == Find(top, k)
    ensures names == [] ==> WithNetworks(top, names) == top
    ensures names != [] ==>
      Find(WithNetworks(top, names), NETWORKS) == Some(Map(AddNetworks(MapAt(top, NETWORKS), names)))
  {
    var nets := Map(AddNetworks(MapAt(top, NETWORKS), names));
    FindPut(top, NETWORKS, nets, k);
    FindPut(top, NETWORKS, nets, NETWORKS);
  }

  function ServicesAfter(top: Pairs, x: App): Pairs {
    var services := MapAt(top, SERVICES);
    Put(services, x.name, Map(NewService(x, MapAt(services, x.name))))
  }

  lemma {:induction false} FindWithService(top: Pairs, x: App, k: string)
    ensures k != SERVICES ==> Find(WithService(top, x), k) == Find(top, k)
    ensures Find(WithService(top, x), SERVICES) == Some(Map(ServicesAfter(top, x)))
  {
    FindPut(top, SERVICES, Map(ServicesAfter(top, x)), k);
    FindPut(top, SERVICES, Map(ServicesAfter(top, x)), SERVICES);
  }

  /** The document before its volumes are declared. */
  function Written(top: Pairs, x: App): Pairs { WithService(WithNetworks(top, x.networkNames), x) }

  lemma {:induction false} FindWritten(top: Pairs, x: App, k: string)
    ensures k !in {SERVICES, NETWORKS} ==> Find(Written(top, x), k) == Find(top, k)
    ensures Find(Written(top, x), SERVICES) == Some(Map(ServicesAfter(top, x)))
    ensures x.networkNames == [] ==> Find(Written(top, x), NETWORKS) == Find(top, NETWORKS)
    ensures x.networkNames != [] ==>
      Find(Written(top, x), NETWORKS) == Some(Map(AddNetworks(MapAt(top, NETWORKS), x.networkNames)))
  {
    SectionsDistinct();
    var nets := WithNetworks(top, x.networkNames);
    hide WithNetworks, WithService, NewService, SERVICES, NETWORKS, VOLUMES, Find;
    FindWithNetworks(top, x.networkNames, k);
    FindWithNetworks(top, x.networkNames, SERVICES);
    FindWithService(nets, x, k);
    FindWithService(nets, x, NETWORKS);
  }

  /** Other sections of the file are as they were. */
  lemma {:induction false} OtherSectionsKept(top: Pairs, x: App, k: string)
    requires k !in {SERVICES, NETWORKS, VOLUMES}
    ensures Find(Applied(top, x), k) == Find(top, k)
  {
    hide Synced, Written, Find, SERVICES, NETWORKS, VOLUMES;
    FindWritten(top, x, k);
    SyncKeepsOthers(Written(top, x), k);
    AppliedIs(top, x);
  }

  lemma {:induction false} AppliedIs(top: Pairs, x: App)
    ensures Applied(top, x) == Synced(Written(top, x))
  {}

  lemma {:induction false} ServicesOf(top: Pairs, x: App)
    ensures Find(Applied(top, x), SERVICES) == Some(Map(ServicesAfter(top, x)))
    ensures MapAt(Applied(top, x), SERVICES) == ServicesAfter(top, x)
  {
    SectionsDistinct();
    AppliedIs(top, x);
    hide Synced, Written, Find, SERVICES, NETWORKS, VOLUMES, ServicesAfter, Applied;
    FindWritten(top, x, SERVICES);
    SyncKeepsOthers(Written(top, x), SERVICES);
  }

  /** The app's service is what the model gives it; the other services are as they were. */
  lemma {:induction false} OtherServicesKept(top: Pairs, x: App, n: string)
    ensures var services := MapAt(top, SERVICES);
            Find(MapAt(Applied(top, x), SERVICES), n) == if n == x.name
              then Some(Map(NewService(x, MapAt(services, x.name)))) else Find(services, n)
  {
    ServicesOf(top, x);
    hide Applied, NewService, SERVICES;
    var services := MapAt(top, SERVICES);
    FindPut(services, x.name, Map(NewService(x, MapAt(services, x.name))), n);
  }

  /** In the app's service, what the forms do not know is as it was, in the order it was,
      and so are the subkeys of x-hsi that they do not know, but for "__proto__". */
  lemma {:induction false} UnknownKeysKept(top: Pairs, x: App, k: string)
    ensures var was, now := MapAt(MapAt(top, SERVICES), x.name), MapAt(MapAt(Applied(top, x), SERVICES), x.name);
            && Unknown(now) == Unknown(was)
            && (k !in ORDER ==> Find(now, k) == Find(was, k))
            && (k !in {PINNED_URL, PORTS} && Unique(MapAt(was, X_HSI)) ==>
                  (Find(MapAt(now, X_HSI), k) == Find(MapAt(was, X_HSI), k) <==>
                    k != PROTO || !Has(MapAt(was, X_HSI), PROTO)))
  {
    OtherServicesKept(top, x, x.name);
    hide Applied, NewService, ORDER, SERVICES, PINNED_URL, PORTS, X_HSI, PROTO, Unknown, Find;
    var was := MapAt(MapAt(top, SERVICES), x.name);
    UnknownKept(x, was);
    FoundIsHad(MapAt(was, X_HSI), PROTO);
    if k !in ORDER { FindUnknown(x, was, k); }
    if k !in {PINNED_URL, PORTS} && Unique(MapAt(was, X_HSI)) { XHsiKept(x, was, k); }
  }

  /** A file whose x-hsi has that subkey: it is gone from the file written. */
  lemma {:induction false} ProtoSubkeyIsLost(x: App, v: Node)
    requires x.name == "app"
    ensures var xhsi: Pairs := [(PROTO, v)];
      var top: Pairs := [(SERVICES, Map([("app", Map([(X_HSI, Map(xhsi))]))]))];
      && Find(MapAt(MapAt(MapAt(top, SERVICES), "app"), X_HSI), PROTO) == Some(v)
      && Find(MapAt(MapAt(MapAt(Applied(top, x), SERVICES), "app"), X_HSI), PROTO) == None
  {
    var xhsi: Pairs := [(PROTO, v)];
    var service: Pairs := [(X_HSI, Map(xhsi))];
    var services: Pairs := [("app", Map(service))];
    var top: Pairs := [(SERVICES, Map(services))];
    SectionsDistinct();
    OtherServicesKept(top, x, "app");
    XHsiKept(x, service, PROTO);
    hide Applied, NewService;
  }

  /** Networks are only added, and only the app's. */
  lemma {:induction false} NetworksOnlyAdded(top: Pairs, x: App, n: string)
    ensures var was := MapAt(top, NETWORKS);
            Find(MapAt(Applied(top, x), NETWORKS), n) == if Has(was, n) then Find(was, n)
              else if n in x.networkNames then Some(ExternalNetwork(n)) else None
  {
    SectionsDistinct();
    AppliedIs(top, x);
    hide Synced, Written, Find, SERVICES, NETWORKS, VOLUMES, Applied, Has;
    FindWritten(top, x, NETWORKS);
    SyncKeepsOthers(Written(top, x), NETWORKS);
    FindNetworks(MapAt(top, NETWORKS), x.networkNames, n);
    FoundIsHad(MapAt(top, NETWORKS), n);
  }

  lemma {:induction false} FoundIsHad(ps: Pairs, n: string)
    ensures Has(ps, n) <==> Find(ps, n).Some?
  {}

  /** Declarations change only by adding the referenced names that are missing and dropping
      HSI's own that nothing references. */
  lemma {:induction false} VolumesOnlySynced(top: Pairs, x: App, n: string)
    requires Unique(MapAt(top, VOLUMES))
    ensures var was, refs := Find(MapAt(top, VOLUMES), n), Refs(Applied(top, x));
            Find(MapAt(Applied(top, x), VOLUMES), n) ==
              if was.Some? then (if n in refs || was.value != Declaration(n) then was else None)
              else if n in refs && n !in INHERITED then Some(Declaration(n))
              else None
  {
    SectionsDistinct();
    AppliedIs(top, x);
    hide Synced, Written, Find, SERVICES, NETWORKS, VOLUMES, Applied, Refs, INHERITED;
    FindWritten(top, x, VOLUMES);
    SyncVolumes(Written(top, x), n);
    SyncRefs(Written(top, x));
  }

  /** What the declarations of a file just written pin: the exact name of each volume that is
      referenced and was not declared; one that is gone said just that, and nothing refers to
      it any more. */
  lemma {:induction false} VolumesPinned(top: Pairs, x: App, n: string)
    requires Unique(MapAt(top, "volumes"))
    ensures var was, now := Find(MapAt(top, "volumes"), n), Find(MapAt(Applied(top, x), "volumes"), n);
      var pinned := Some(Map([("name", Str(n))]));
      && (was == None && n in Refs(Applied(top, x)) && n !in INHERITED ==> now == pinned)
      && (was == None && now.Some? ==> now == pinned && n in Refs(Applied(top, x)))
      && (was.Some? && now != was ==> was == pinned && now == None && n !in Refs(Applied(top, x)))
  {
    VolumesOnlySynced(top, x, n);
    hide Applied, Refs, INHERITED, Find;
  }

  /** A network that was not there is external, under its own name. */
  lemma {:induction false} NetworksPinned(top: Pairs, x: App, n: string)
    ensures var was, now := Find(MapAt(top, "networks"), n), Find(MapAt(Applied(top, x), "networks"), n);
      && (was.Some? ==> now == was)
      && (was == None ==> now == if n in x.networkNames
           then Some(Map([("external", Bool(true)), ("name", Str(n))])) else None)
  {
    NetworksOnlyAdded(top, x, n);
    FoundIsHad(MapAt(top, NETWORKS), n);
    hide Applied, Find, Has;
  }

  lemma {:induction false} NetworksThere(top: Pairs, x: App)
    ensures WithNetworks(Applied(top, x), x.networkNames) == Applied(top, x)
  {
    var t := Applied(top, x);
    if x.networkNames != [] {
      SectionsDistinct();
      AppliedIs(top, x);
      hide Synced, Written, Find, SERVICES, NETWORKS, VOLUMES, Applied, Has, AddNetworks;
      FindWritten(top, x, NETWORKS);
      SyncKeepsOthers(Written(top, x), NETWORKS);
      var nets := AddNetworks(MapAt(top, NETWORKS), x.networkNames);
      assert Find(t, NETWORKS) == Some(Map(nets));
      forall n | n in x.networkNames ensures Has(nets, n) {
        FindNetworks(MapAt(top, NETWORKS), x.networkNames, n);
        FoundIsHad(nets, n);
        FoundIsHad(MapAt(top, NETWORKS), n);
      }
      NetworksAgain(nets, x.networkNames);
      PutTwice(t, NETWORKS, Map(nets), Map(nets));
    }
  }

  lemma {:induction false} ServiceThere(top: Pairs, x: App)
    ensures WithService(Applied(top, x), x) == Applied(top, x)
  {
    var t := Applied(top, x);
    ServicesOf(top, x);
    var services, was := MapAt(top, SERVICES), MapAt(MapAt(top, SERVICES), x.name);
    var after := ServicesAfter(top, x);
    NewServiceTwice(x, was);
    hide Applied, NewService, SERVICES;
    FindPut(services, x.name, Map(NewService(x, was)), x.name);
    assert MapAt(after, x.name) == NewService(x, was);
    PutTwice(after, x.name, Map(NewService(x, was)), Map(NewService(x, was)));
    PutTwice(t, SERVICES, Map(after), Map(after));
  }

  /** A second generation changes nothing. */
  lemma {:induction false} ApplyTwice(top: Pairs, x: App)
    requires Unique(MapAt(top, VOLUMES))
    ensures Applied(Applied(top, x), x) == Applied(top, x)
  {
    SectionsDistinct();
    var t := Applied(top, x);
    NetworksThere(top, x);
    ServiceThere(top, x);
    AppliedIs(top, x);
    AppliedIs(t, x);
    assert Written(t, x) == t;
    hide Synced, Written, Find, SERVICES, NETWORKS, VOLUMES, Applied;
    FindWritten(top, x, VOLUMES);
    SyncTwice(Written(top, x));
  }
}
