/** Reading the form model back from a Compose file (packages/compose/src/compose.ts), and
    exactly when what was written is what is read. */
module ComposeRoundTrip {
  import opened Text
  import opened StableSort
  import opened YamlTree
  import opened Compose
  import opened ComposeLaws

  // ── Reading the parts ───────────────────────────────────────────────────────

  /** Number(s), for a string of digits. */
  function NumberOf(s: string): Option<nat> {
    if s != "" && forall k :: 0 <= k < |s| ==> IsDigit(s[k]) then Some(Number(s)) else None
  }

  function ParsePort(s: string): Option<Port> {
    var parts := Split(s, '/');
    var protocol := if |parts| > 1 then parts[1] else "tcp";
    var numbers := Split(parts[0], ':');
    var host, container := NumberOf(numbers[0]), if |numbers| > 1 then NumberOf(numbers[1]) else None;
    if host.Some? && container.Some? && protocol in {"tcp", "udp"} then
      Some(Port(host.value, container.value, protocol == "udp", None, false, None))
    else None
  }

  function ParseVolume(s: string): Mount {
    var parts := Split(s, ':');
    Mount(if HasPrefix(parts[0], "/") then Bind else Named, parts[0], if |parts| > 1 then parts[1] else "", |parts| > 2
      && parts[2] == "ro")
  }

  /** Every item read, or None when one is not what the forms can show. */
  function ParseAll<A>(items: seq<Node>, parse: Node -> Option<A>): (r: Option<seq<A>>)
    ensures r.Some? <==> forall i :: 0 <= i < |items| ==> parse(items[i]).Some?
    ensures r.Some? ==> |r.value| == |items| && forall i :: 0 <= i < |items| ==> parse(items[i]) == Some(r.value[i])
  {
    if items == [] then Some([])
    else
      var first, rest := parse(items[0]), ParseAll(items[1..], parse);
      assert forall i :: 0 < i < |items| ==> items[i] == items[1..][i - 1];
      if first.Some? && rest.Some? then Some([first.value] + rest.value) else None
  }

  function TextOf(n: Node): Option<string> { if n.Str? then Some(n.text) else None }

  function PortOf(n: Node): Option<Port> { if n.Str? then ParsePort(n.text) else None }

  function MountOf(n: Node): Option<Mount> { if n.Str? then Some(ParseVolume(n.text)) else None }

  /** A list, none for anything else. */
  function Items(n: Option<Node>): seq<Node> { if n.Some? && n.value.Seq? then n.value.items else [] }

  function CutAtEquals(s: string): Entry {
    if s == "" || s[0] == '=' then ("", if s == "" then "" else s[1..])
    else
      var (k, v) := CutAtEquals(s[1..]);
      ([s[0]] + k, v)
  }

  /** An entry of the list form; without "=" its key is empty, which no model allows. */
  function ListEntry(n: Node): Option<Entry> {
    if !n.Str? then None else if '=' in n.text then Some(CutAtEquals(n.text)) else Some(("", n.text))
  }

  /** In the list form an entry is its key, up to the first "=", and its value. */
  lemma {:induction false} ListEntryIs(key: string, value: string)
    requires '=' !in key
    ensures ListEntry(Str(key + "=" + value)) == Some((key, value)) && ListEntry(Str(key)) == Some(("", key))
  {
    if key == "" {
      assert ("=" + value)[1..] == value && key + "=" + value == "=" + value;
    } else {
      ListEntryIs(key[1..], value);
      assert (key + "=" + value)[1..] == key[1..] + "=" + value && [key[0]] + key[1..] == key;
    }
  }

  function PairEntry(p: (string, Node)): Option<Entry> {
    match p.1
    case Str(s) => Some((p.0, s))
    case Null => Some((p.0, ""))
    case _ => None
  }

  function PairEntries(ps: Pairs): (r: Option<seq<Entry>>)
    ensures r.Some? <==> forall i :: 0 <= i < |ps| ==> PairEntry(ps[i]).Some?
    ensures r.Some? ==> |r.value| == |ps| && forall i :: 0 <= i < |ps| ==> PairEntry(ps[i]) == Some(r.value[i])
  {
    if ps == [] then Some([])
    else
      var first, rest := PairEntry(ps[0]), PairEntries(ps[1..]);
      assert forall i :: 0 < i < |ps| ==> ps[i] == ps[1..][i - 1];
      if first.Some? && rest.Some? then Some([first.value] + rest.value) else None
  }

  /** kvEntries: both forms. */
  function KvEntries(n: Option<Node>): Option<seq<Entry>> {
    if n.Some? && n.value.Seq? then ParseAll(n.value.items, e => ListEntry(e))
    else if n.Some? && n.value.Map? then PairEntries(FromEntries(n.value.pairs))
    else Some([])
  }

  /** The entries of a map of texts, none when it is absent. */
  function TextEntries(n: Option<Node>): Option<seq<Entry>> {
    if n in {None, Some(Null)} then Some([]) else if n.value.Map? then PairEntries(FromEntries(n.value.pairs)) else None
  }

  function TextOrNull(n: Option<Node>): Option<Option<string>> {
    if n in {None, Some(Null)} then Some(None) else if n.value.Str? then Some(Some(n.value.text)) else None
  }

  // ── Domains ─────────────────────────────────────────────────────────────────

  datatype Access = Access(containerPort: real, domain: string, tls: bool, publicPort: Option<nat>)

  function ReadAccess(n: Node): Option<Access> {
    if !n.Map? then None
    else
      var port, domain, tls, public := Find(n.pairs, "containerPort"), Find(n.pairs, "domain"), Find(n.pairs, "tls"),
        Find(n.pairs, "publicPort");
      if port.Some? && port.value.Num? && (domain in {None, Some(Null)} || domain.value.Str?)
        && (tls in {None, Some(Null)} || tls.value.Bool?) then
        var d := if domain.Some? && domain.value.Str? then domain.value.text else "";
        var t := tls.Some? && tls.value.Bool? && tls.value.flag;
        if public in {None, Some(Null)} then Some(Access(port.value.number, d, t, None))
        else if public.value.Num? && public.value.number >= 0.0
          && public.value.number.Floor as real == public.value.number then
          Some(Access(port.value.number, d, t, Some(public.value.number.Floor)))
        else None
      else None
  }

  /** The first port with the container port gets the access, if it has a domain. */
  function Assign(ports: seq<Port>, a: Access): (r: seq<Port>)
    ensures |r| == |ports|
  {
    if ports == [] || a.domain == "" then ports
    else if ports[0].containerPort as real == a.containerPort then
      [ports[0].(domain := Some(a.domain), tls := a.tls, publicPort := a.publicPort)] + ports[1..]
    else [ports[0]] + Assign(ports[1..], a)
  }

  function AssignAll(ports: seq<Port>, accesses: seq<Access>): (r: seq<Port>)
    ensures |r| == |ports|
  {
    if accesses == [] then ports else Assign(AssignAll(ports, accesses[..|accesses| - 1]), accesses[|accesses| - 1])
  }

  // ── What a model must be ────────────────────────────────────────────────────

  predicate PortNumber(n: nat) { 1 <= n <= 65535 }

  predicate ValidPort(p: Port) {
    && PortNumber(p.hostPort) && PortNumber(p.containerPort)
    && (p.domain.Some? ==> 1 <= |p.domain.value| <= 253) && (p.publicPort.Some? ==> PortNumber(p.publicPort.value))
  }

  predicate LowerOrDigit(c: char) { 'a' <= c <= 'z' || '0' <= c <= '9' }

  predicate ValidName(s: string) {
    1 <= |s| <= 64 && LowerOrDigit(s[0]) && forall i :: 0 <= i < |s| ==> LowerOrDigit(s[i]) || s[i] in {'.', '_', '-'}
  }

  lemma {:induction false} NamesOfApps(s: string)
    ensures ValidName(s) <==>
      1 <= |s| <= 64 && s[0] !in "._-" && forall c :: c in s ==> c in LOWER + DIGITS + "._-"
  {
    forall c ensures NameChar(c) { NameChars(c); }
    if s != "" { assert s[0] in s && NameChar(s[0]); }
    assert forall i :: 0 <= i < |s| ==> s[i] in s && NameChar(s[i]);
    hide LOWER, DIGITS, LowerOrDigit;
  }

  ghost predicate NameChar(c: char) {
    && (LowerOrDigit(c) || c in {'.', '_', '-'} <==> c in LOWER + DIGITS + "._-")
    && (LowerOrDigit(c) <==> c in LOWER + DIGITS + "._-" && c !in "._-")
  }

  lemma {:induction false} NameChars(c: char)
    ensures NameChar(c)
  {
    LowerIs(c);
    DigitIs(c);
    assert c in "._-" <==> c in {'.', '_', '-'};
    hide LOWER, DIGITS;
  }

  /** One ":" with something on both sides. */
  predicate ValidHost(h: string) {
    var i := FirstColon(h);
    0 < i && i + 1 < |h| && ':' !in h[i + 1..]
  }

  predicate ValidMemory(s: string) {
    s != "" &&
    var digits := if s[|s| - 1] in {'k', 'm', 'g', 'K', 'M', 'G'} then s[..|s| - 1] else s;
    digits != "" && forall i :: 0 <= i < |digits| ==> IsDigit(digits[i])
  }

  /** zAppInput; isUrl is what its pinned URL accepts. */
  predicate ValidApp(x: App, isUrl: string -> bool) {
    && ValidName(x.name) && x.image != ""
    && (forall p :: p in x.ports ==> ValidPort(p))
    && (forall e :: e in x.envs ==> e.0 != "") && (forall e :: e in x.labels ==> e.0 != "")
    && (forall v :: v in x.volumes ==> v.source != "" && HasPrefix(v.target, "/"))
    && (forall h :: h in x.extraHosts ==> ValidHost(h))
    && x.restartPolicy in {"no", "always", "unless-stopped", "on-failure"}
    && (x.hostname.Some? ==> |x.hostname.value| <= 63)
    && (x.cpuLimit.Some? ==> 0.0 <= x.cpuLimit.value <= 64.0)
    && (x.memoryLimit.Some? ==> ValidMemory(x.memoryLimit.value))
    && (x.pinnedUrl.Some? ==> isUrl(x.pinnedUrl.value))
  }

  // ── Reading a service ───────────────────────────────────────────────────────

  function HostOf(e: Entry): string { e.0 + ":" + e.1 }

  function PortsOf(service: Pairs): Option<seq<Port>> {
    var ports := ParseAll(Items(Find(service, PORTS)), n => PortOf(n));
    var accesses := ParseAll(Items(Find(MapAt(service, X_HSI), PORTS)), n => ReadAccess(n));
    if ports.Some? && accesses.Some? then Some(AssignAll(ports.value, accesses.value)) else None
  }

  function PinnedOf(service: Pairs, isUrl: string -> bool): Option<string> {
    var url := Find(MapAt(service, X_HSI), PINNED_URL);
    if url.Some? && url.value.Str? && isUrl(url.value.text) then Some(url.value.text) else None
  }

  function NumberOrNull(n: Option<Node>): Option<Option<real>> {
    if n in {None, Some(Null)} then Some(None) else if n.value.Num? then Some(Some(n.value.number)) else None
  }

  function ListOf(n: Option<Node>): Option<seq<string>> {
    if n in {None, Some(Null)} then Some([]) else if n.value.Seq? then ParseAll(n.value.items, e => TextOf(e)) else None
  }

  datatype Lists = Lists(
    ports: seq<Port>, envs: seq<Entry>, volumes: seq<Mount>, networkNames: seq<string>, labels: seq<Entry>,
    capAdd: seq<string>, capDrop: seq<string>, extraHosts: seq<string>)

  function ReadLists(service: Pairs): Option<Lists> {
    var ports := PortsOf(service);
    var envs, labels, hosts := KvEntries(Find(service, ENVIRONMENT)), KvEntries(Find(service, LABELS)),
      TextEntries(Find(service, EXTRA_HOSTS));
    var volumes := ParseAll(Items(Find(service, VOLUMES)), n => MountOf(n));
    var networks := ParseAll(Items(Find(service, NETWORKS)), n => TextOf(n));
    var capAdd, capDrop := ListOf(Find(service, CAP_ADD)), ListOf(Find(service, CAP_DROP));
    if ports.Some? && envs.Some? && labels.Some? && hosts.Some? && volumes.Some? && networks.Some? && capAdd.Some?
      && capDrop.Some? then
      Some(Lists(ports.value, envs.value, volumes.value, networks.value, labels.value, capAdd.value, capDrop.value,
                 Each(hosts.value, (e: Entry) => HostOf(e))))
    else None
  }

  datatype Scalars = Scalars(
    image: Option<string>, restart: Option<string>, hostname: Option<string>, user: Option<string>,
      command: Option<string>,
    cpuLimit: Option<real>, memoryLimit: Option<string>)

  function ReadScalars(service: Pairs): Option<Scalars> {
    var image, restart := TextOrNull(Find(service, IMAGE)), TextOrNull(Find(service, RESTART));
    var hostname, user, command := TextOrNull(Find(service, HOSTNAME)), TextOrNull(Find(service, USER)),
      Find(service, COMMAND);
    var cpus, memory := NumberOrNull(Find(service, CPUS)), TextOrNull(Find(service, MEM_LIMIT));
    if image.Some? && restart.Some? && hostname.Some? && user.Some? && cpus.Some? && memory.Some? then
      Some(Scalars(image.value, restart.value, hostname.value, user.value,
                   if command.Some? && command.value.Str? then Some(command.value.text) else None,
                   cpus.value, memory.value))
    else None
  }

  /** What the forms would show of a service; None when they cannot. */
  function Candidate(name: string, service: Pairs, isUrl: string -> bool): Option<App> {
    var lists, scalars := ReadLists(service), ReadScalars(service);
    if lists.None? || scalars.None? then None
    else
      var l, s := lists.value, scalars.value;
      Some(App(
        name, if s.image.Some? then s.image.value else "",
        l.ports, l.envs, l.volumes, l.networkNames, l.labels, l.capAdd, l.capDrop, l.extraHosts,
        if s.restart.Some? then s.restart.value else "no",
        s.hostname, s.user, s.command, s.cpuLimit, s.memoryLimit, PinnedOf(service, isUrl)))
  }

  /** The app parseComposeYaml returns: of the only service, or of the main one. */
  function ParseApp(top: Pairs, main: Option<string>, isUrl: string -> bool): Option<App> {
    var services := MapAt(top, SERVICES);
    if exists i :: 0 <= i < |services| && !services[i].1.Map? then None
    else
      var name := if |services| == 1 then Some(services[0].0) else if main.Some? && Has(services, main.value) then main
        else None;
      if name == None then None
      else
        var app := Candidate(name.value, MapAt(services, name.value), isUrl);
        if app.Some? && ValidApp(app.value, isUrl) then app else None
  }

  // ── What is read of what was written ────────────────────────────────────────

  function NonEmpty(s: Option<string>): Option<string> { if s == Some("") then None else s }

  function Plain(p: Port): Port { Port(p.hostPort, p.containerPort, p.udp, None, false, None) }

  function AccessOf(p: Port): Access
    requires p.domain.Some?
  {
    Access(p.containerPort as real, p.domain.value, p.tls, p.publicPort)
  }

  function Accesses(ports: seq<Port>): seq<Access> {
    if ports == [] then [] else (if HasDomain(ports[0]) then [AccessOf(ports[0])] else []) + Accesses(ports[1..])
  }

  function RereadPorts(ports: seq<Port>): seq<Port> {
    AssignAll(Each(ports, (p: Port) => Plain(p)), Accesses(ports))
  }

  function RereadHosts(hosts: seq<string>): seq<string> {
    Each(FromEntries(Each(hosts, (h: string) => HostEntry(h))), (e: Entry) => HostOf(e))
  }

  /** The model as it is read back. */
  function Reread(x: App, isUrl: string -> bool): App {
    x.(ports := RereadPorts(x.ports), envs := FromEntries(x.envs),
       volumes := Each(x.volumes, (v: Mount) => ParseVolume(VolumeStr(v))),
       labels := FromEntries(x.labels), extraHosts := RereadHosts(x.extraHosts),
       hostname := NonEmpty(x.hostname), user := NonEmpty(x.user), command := NonEmpty(x.command),
       memoryLimit := NonEmpty(x.memoryLimit),
       pinnedUrl :=
         if x.pinnedUrl.Some? && x.pinnedUrl.value != "" && isUrl(x.pinnedUrl.value) then x.pinnedUrl else None)
  }

  lemma {:induction false} NoneOf(s: string, c: char)
    requires (forall k :: 0 <= k < |s| ==> IsDigit(s[k])) && !IsDigit(c)
    ensures c !in s
  {}

  /** A port's text reads back as the port, without what only x-hsi holds. */
  lemma {:induction false} PortTextRoundTrip(p: Port)
    ensures ParsePort(PortStr(p)) == Some(Plain(p))
  {
    var h, c := Decimal(p.hostPort), Decimal(p.containerPort);
    NumberOfDecimal(p.hostPort);
    NumberOfDecimal(p.containerPort);
    assert !IsDigit('/') && !IsDigit(':');
    NoneOf(h, ':');
    NoneOf(h, '/');
    NoneOf(c, ':');
    NoneOf(c, '/');
    hide Decimal, Number, Split;
    var pc := h + ":" + c;
    assert '/' !in pc;
    SplitCons(h, c, ':');
    SplitSingle(c, ':');
    assert "udp" == "udp" && '/' !in "udp";
    if p.udp {
      assert PortStr(p) == pc + "/" + "udp";
      SplitCons(pc, "udp", '/');
      SplitSingle("udp", '/');
    } else {
      assert PortStr(p) == pc;
      SplitSingle(pc, '/');
    }
  }

  lemma {:induction false} AccessRoundTrip(p: Port)
    requires HasDomain(p)
    ensures ReadAccess(DomainPort(p)) == Some(AccessOf(p))
  {
    var ps := DomainPort(p).pairs;
    assert (p.containerPort as real).Floor == p.containerPort;
    FourFields(ps);
  }

  lemma {:induction false} FourFields(ps: Pairs)
    requires |ps| == 4 && ps[0].0 == "containerPort" && ps[1].0 == "domain" && ps[2].0 == "tls"
      && ps[3].0 == "publicPort"
    ensures Find(ps, "containerPort") == Some(ps[0].1) && Find(ps, "domain") == Some(ps[1].1)
    ensures Find(ps, "tls") == Some(ps[2].1) && Find(ps, "publicPort") == Some(ps[3].1)
  {
    var a, b, c := ps[1..], ps[2..], ps[3..];
    assert ps == [ps[0]] + a && a == [ps[1]] + b && b == [ps[2]] + c && c == [ps[3]] + [];
    KeysApart();
    hide Find, Has;
    FindThrough(ps[0], a, "domain");
    FindThrough(ps[0], a, "tls");
    FindThrough(ps[0], a, "publicPort");
    FindThrough(ps[0], a, "containerPort");
    FindThrough(ps[1], b, "domain");
    FindThrough(ps[1], b, "tls");
    FindThrough(ps[1], b, "publicPort");
    FindThrough(ps[2], c, "tls");
    FindThrough(ps[2], c, "publicPort");
    FindThrough(ps[3], [], "publicPort");
  }

  lemma {:induction false} KeysApart()
    ensures "containerPort" != "domain" && "containerPort" != "tls" && "containerPort" != "publicPort"
    ensures "domain" != "tls" && "domain" != "publicPort" && "tls" != "publicPort"
  {}

  lemma {:induction false} FindThrough(p: (string, Node), ps: Pairs, k: string)
    ensures Find([p] + ps, k) == if p.0 == k then Some(p.1) else Find(ps, k)
  {
    FindCons(p, ps, k);
  }

  lemma {:induction false} DomainPortsCons(p: Port, tail: seq<Port>)
    ensures DomainPorts([p] + tail) == (if HasDomain(p) then [DomainPort(p)] else []) + DomainPorts(tail)
  {
    hide DomainPort, HasDomain;
    FilterCons(p, tail, (p: Port) => HasDomain(p));
  }

  lemma {:induction false} AccessesOf(ports: seq<Port>)
    ensures |Accesses(ports)| == |DomainPorts(ports)|
    ensures forall i :: 0 <= i < |Accesses(ports)| ==> ReadAccess(DomainPorts(ports)[i]) == Some(Accesses(ports)[i])
  {
    if ports != [] {
      var p, tail := ports[0], ports[1..];
      AccessesOf(tail);
      DomainPortsCons(p, tail);
      assert ports == [p] + tail;
      if HasDomain(p) { AccessRoundTrip(p); }
      assert Accesses(ports) == (if HasDomain(p) then [AccessOf(p)] else []) + Accesses(tail);
      hide ReadAccess, DomainPorts, Accesses, DomainPort, AccessOf, HasDomain;
    }
  }

  lemma {:induction false} AllParsed<A>(items: seq<Node>, parse: Node -> Option<A>, values: seq<A>)
    requires |items| == |values| && forall i :: 0 <= i < |items| ==> parse(items[i]) == Some(values[i])
    ensures ParseAll(items, parse) == Some(values)
  {
    var r := ParseAll(items, parse);
    assert r.Some? && r.value == values;
  }

  lemma {:induction false} ItemsOfList(xs: seq<string>)
    ensures Items(ListNode(xs)) == Texts(xs)
  {
    if xs == [] { assert Texts(xs) == []; }
  }

  // Each setting as Find gives it, read back.

  lemma {:induction false} PortsBack(x: App, service: Pairs)
    ensures PortsOf(NewService(x, service)) == Some(RereadPorts(x.ports))
  {
    var s := NewService(x, service);
    assert ORDER[1] == PORTS;
    FindSetting(x, service, 1);
    XHsiAt(x, service);
    var texts := Each(x.ports, (p: Port) => PortStr(p));
    assert Find(s, PORTS) == ListNode(texts);
    ItemsOfList(texts);
    var plain := Each(x.ports, (p: Port) => Plain(p));
    forall i | 0 <= i < |x.ports| ensures PortOf(Texts(texts)[i]) == Some(plain[i]) { PortTextRoundTrip(x.ports[i]); }
    hide PortStr, ParsePort, Plain, NewService, ReadAccess, XHsi, ListNode, DomainPorts, Accesses, PORTS, X_HSI;
    AllParsed(Texts(texts), n => PortOf(n), plain);
    FindXHsiPorts(x, service);
    AccessesOf(x.ports);
    AllParsed(DomainPorts(x.ports), n => ReadAccess(n), Accesses(x.ports));
  }

  lemma {:induction false} FindXHsiPorts(x: App, service: Pairs)
    ensures Items(Find(XHsi(x, service), PORTS)) == DomainPorts(x.ports)
    ensures Find(XHsi(x, service), PINNED_URL) == if x.pinnedUrl.Some?
      && x.pinnedUrl.value != "" then Some(Str(x.pinnedUrl.value)) else None
  {
    SectionsDistinct();
    XHsiParts(x, service);
    CarriedFacts(service);
    var a, b, c := Carried(service), PinnedPart(x), PortsPart(x);
    forall i | 0 <= i < |a| ensures a[i].0 != PINNED_URL && a[i].0 != PORTS { assert a[i] in a && CarriesOver(a[i]); }
    if b != [] { OneFind(b[0], PORTS); OneFind(b[0], PINNED_URL); }
    if c != [] { OneFind(c[0], PORTS); OneFind(c[0], PINNED_URL); }
    assert !Has(a, PORTS) && !Has(a, PINNED_URL);
    hide Carried, XHsi, PINNED_URL, PORTS, DomainPorts;
    FindThree(a, b, c, PORTS);
    FindThree(a, b, c, PINNED_URL);
  }

  lemma {:induction false} FindThree(a: Pairs, b: Pairs, c: Pairs, k: string)
    ensures Find(a + b + c, k) == if Has(a, k) then Find(a, k) else if Has(b, k) then Find(b, k) else Find(c, k)
  {
    hide Find, Has;
    FindConcat(a + b, c, k);
    FindConcat(a, b, k);
    HasParts(a, b, k);
  }

  lemma {:induction false} EntriesBack(es: seq<Entry>)
    ensures KvEntries(ObjectNode(es)) == Some(FromEntries(es)) && TextEntries(ObjectNode(es)) == Some(FromEntries(es))
  {
    if es != [] {
      var kept := FromEntries(es);
      var nodes := EntryNodes(kept);
      FromEntriesOrdered(es);
      NodesOrdered(kept);
      KeptExactly(nodes);
      hide FromEntries, JsOrdered;
      var r := PairEntries(nodes);
      assert forall i :: 0 <= i < |nodes| ==> PairEntry(nodes[i]) == Some(kept[i]);
      assert r.Some? && r.value == kept;
    }
  }

  lemma {:induction false} NodesOrdered(es: seq<Entry>)
    requires JsOrdered(es)
    ensures JsOrdered(EntryNodes(es))
  {
    hide IndexLike, Index;
  }

  lemma {:induction false} ListsBack(xs: seq<string>)
    ensures ListOf(ListNode(xs)) == Some(xs) && ParseAll(Items(ListNode(xs)), n => TextOf(n)) == Some(xs)
  {
    ItemsOfList(xs);
    AllParsed(Texts(xs), n => TextOf(n), xs);
    if xs == [] { assert Texts(xs) == []; }
  }

  lemma {:induction false} VolumesBack(x: App)
    ensures ParseAll(Items(ListNode(Each(x.volumes, (v: Mount) => VolumeStr(v)))), n => MountOf(n))
      == Some(Each(x.volumes, (v: Mount) => ParseVolume(VolumeStr(v))))
  {
    var texts := Each(x.volumes, (v: Mount) => VolumeStr(v));
    ItemsOfList(texts);
    hide ParseVolume, VolumeStr;
    AllParsed(Texts(texts), n => MountOf(n), Each(x.volumes, (v: Mount) => ParseVolume(VolumeStr(v))));
  }

  lemma {:induction false} TextsBack(s: string, o: Option<string>)
    ensures TextOrNull(TextNode(s)) == Some(if s == "" then None else Some(s))
    ensures TextOrNull(OptText(o)) == Some(NonEmpty(o))
  {}

  /** The settings of a new service, by name. */
  lemma {:induction false} SettingsBack(x: App, service: Pairs)
    ensures var s := NewService(x, service);
            && Find(s, IMAGE) == TextNode(x.image) && Find(s, ENVIRONMENT) == ObjectNode(x.envs)
            && Find(s, VOLUMES) == ListNode(Each(x.volumes, (v: Mount) => VolumeStr(v)))
            && Find(s, NETWORKS) == ListNode(x.networkNames) && Find(s, LABELS) == ObjectNode(x.labels)
            && Find(s, CAP_ADD) == ListNode(x.capAdd) && Find(s, CAP_DROP) == ListNode(x.capDrop)
            && Find(s, EXTRA_HOSTS) == ObjectNode(Each(x.extraHosts, (h: string) => HostEntry(h)))
  {
    assert ORDER[0] == IMAGE && ORDER[2] == ENVIRONMENT && ORDER[3] == VOLUMES && ORDER[4] == NETWORKS
      && ORDER[5] == LABELS;
    assert ORDER[6] == CAP_ADD && ORDER[7] == CAP_DROP && ORDER[8] == EXTRA_HOSTS;
    hide NewService, XHsi, TextNode, ObjectNode, ListNode, OptText, VolumeStr, HostEntry, Each, PortStr, Find;
    hide IMAGE, ENVIRONMENT, VOLUMES, NETWORKS, LABELS, CAP_ADD, CAP_DROP, EXTRA_HOSTS;
    FindSetting(x, service, 0);
    FindSetting(x, service, 2);
    FindSetting(x, service, 3);
    FindSetting(x, service, 4);
    FindSetting(x, service, 5);
    FindSetting(x, service, 6);
    FindSetting(x, service, 7);
    FindSetting(x, service, 8);
  }

  lemma {:induction false} ScalarsBack(x: App, service: Pairs)
    ensures var s := NewService(x, service);
            && Find(s, RESTART) == (if x.restartPolicy == "no" then None else TextNode(x.restartPolicy))
            && Find(s, HOSTNAME) == OptText(x.hostname) && Find(s, USER) == OptText(x.user)
              && Find(s, COMMAND) == OptText(x.command)
            && Find(s, CPUS) == (if x.cpuLimit.Some? then Some(Num(x.cpuLimit.value)) else None)
            && Find(s, MEM_LIMIT) == OptText(x.memoryLimit)
  {
    assert ORDER[9] == RESTART && ORDER[10] == HOSTNAME && ORDER[11] == USER && ORDER[12] == COMMAND
      && ORDER[13] == CPUS && ORDER[14] == MEM_LIMIT;
    hide NewService, XHsi, TextNode, ObjectNode, ListNode, OptText, VolumeStr, HostEntry, Each, PortStr, Find;
    hide RESTART, HOSTNAME, USER, COMMAND, CPUS, MEM_LIMIT;
    FindSetting(x, service, 9);
    FindSetting(x, service, 10);
    FindSetting(x, service, 11);
    FindSetting(x, service, 12);
    FindSetting(x, service, 13);
    FindSetting(x, service, 14);
  }

  lemma {:induction false} PinnedBack(x: App, service: Pairs, isUrl: string -> bool)
    ensures PinnedOf(NewService(x, service), isUrl) == Reread(x, isUrl).pinnedUrl
  {
    XHsiAt(x, service);
    FindXHsiPorts(x, service);
    hide NewService, XHsi, RereadPorts, RereadHosts, PINNED_URL, PORTS, X_HSI, Each;
  }

  lemma {:induction false} ReadListsBack(x: App, service: Pairs)
    ensures ReadLists(NewService(x, service)) == Some(Lists(
      RereadPorts(x.ports), FromEntries(x.envs), Each(x.volumes, (v: Mount) => ParseVolume(VolumeStr(v))),
        x.networkNames,
      FromEntries(x.labels), x.capAdd, x.capDrop, RereadHosts(x.extraHosts)))
  {
    SettingsBack(x, service);
    PortsBack(x, service);
    EntriesBack(x.envs);
    EntriesBack(x.labels);
    EntriesBack(Each(x.extraHosts, (h: string) => HostEntry(h)));
    VolumesBack(x);
    ListsBack(x.networkNames);
    ListsBack(x.capAdd);
    ListsBack(x.capDrop);
    hide NewService, PortsOf, KvEntries, TextEntries, ListOf, ListNode, ObjectNode, Items, VolumeStr, ParseVolume,
      HostEntry, HostOf;
    hide IMAGE, ENVIRONMENT, VOLUMES, NETWORKS, LABELS, CAP_ADD, CAP_DROP, EXTRA_HOSTS, FromEntries, RereadPorts, Find,
      ParseAll;
  }

  lemma {:induction false} ReadScalarsBack(x: App, service: Pairs)
    requires x.image != "" && x.restartPolicy != ""
    ensures ReadScalars(NewService(x, service)) == Some(Scalars(
      Some(x.image), if x.restartPolicy == "no" then None else Some(x.restartPolicy),
      NonEmpty(x.hostname), NonEmpty(x.user), NonEmpty(x.command), x.cpuLimit, NonEmpty(x.memoryLimit)))
  {
    SettingsBack(x, service);
    ScalarsBack(x, service);
    TextsBack(x.image, x.hostname);
    TextsBack(x.restartPolicy, x.user);
    TextsBack("", x.command);
    TextsBack("", x.memoryLimit);
    CommandBack(x.command);
    hide NewService, OptText, TextNode, TextOrNull, NonEmpty, ListNode, ObjectNode, Each;
    hide IMAGE, RESTART, HOSTNAME, USER, COMMAND, CPUS, MEM_LIMIT, Find;
    assert TextOrNull(None) == Some(None) by { TextNothing(); }
  }

  lemma {:induction false} TextNothing()
    ensures TextOrNull(None) == Some(None)
  {}

  /** What is read of a service just written. */
  lemma {:induction false} CandidateBack(x: App, service: Pairs, isUrl: string -> bool)
    requires x.image != "" && x.restartPolicy != ""
    ensures Candidate(x.name, NewService(x, service), isUrl) == Some(Reread(x, isUrl))
  {
    PinnedBack(x, service, isUrl);
    ReadListsBack(x, service);
    ReadScalarsBack(x, service);
    hide NewService, ReadLists, ReadScalars, PinnedOf, ParseVolume, VolumeStr, FromEntries, RereadPorts, RereadHosts,
      NonEmpty, Each;
  }

  lemma {:induction false} CommandBack(c: Option<string>)
    ensures var n := OptText(c); (if n.Some? && n.value.Str? then Some(n.value.text) else None) == NonEmpty(c)
  {}

  /** All services of the file but the app's own are maps, as a Compose file's are. */
  ghost predicate ServicesAreMaps(top: Pairs, name: string) {
    forall p :: p in MapAt(top, SERVICES) && p.0 != name ==> p.1.Map?
  }

  lemma {:induction false} PutMembers(ps: Pairs, key: string, v: Node)
    requires Unique(ps)
    ensures forall p :: p in Put(ps, key, v) ==> p == (key, v) || (p in ps && p.0 != key)
    ensures Put(ps, key, v) != [] && (|Put(ps, key, v)| == 1 ==> Put(ps, key, v)[0].0 == key)
  {
    if ps != [] {
      assert ps == [ps[0]] + ps[1..];
      UniqueTail(ps);
      PutMembers(ps[1..], key, v);
      assert forall i :: 0 <= i < |ps[1..]| ==> ps[1..][i] == ps[i + 1];
    }
  }

  lemma {:induction false} ParseNamed(top: Pairs, name: string, isUrl: string -> bool)
    requires var services := MapAt(top, SERVICES);
             && (forall i :: 0 <= i < |services| ==> services[i].1.Map?) && Has(services, name)
               && (|services| == 1 ==> services[0].0 == name)
    ensures var app := Candidate(name, MapAt(MapAt(top, SERVICES), name), isUrl);
            ParseApp(top, Some(name), isUrl) == if app.Some? && ValidApp(app.value, isUrl) then app else None
  {
    hide Candidate, ValidApp, SERVICES, Find, Has;
  }

  lemma {:induction false} ServicesWritten(top: Pairs, x: App)
    requires Unique(MapAt(top, SERVICES)) && ServicesAreMaps(top, x.name)
    ensures var after := MapAt(Applied(top, x), SERVICES);
            && (forall i :: 0 <= i < |after| ==> after[i].1.Map?) && Has(after, x.name)
              && (|after| == 1 ==> after[0].0 == x.name)
            && MapAt(after, x.name) == NewService(x, MapAt(MapAt(top, SERVICES), x.name))
  {
    ServicesOf(top, x);
    var services := MapAt(top, SERVICES);
    var written := Map(NewService(x, MapAt(services, x.name)));
    var after := Put(services, x.name, written);
    assert MapAt(Applied(top, x), SERVICES) == after;
    hide NewService, Find, Put, Applied, SERVICES, Unique, Has;
    PutMembers(services, x.name, written);
    FindPut(services, x.name, written, x.name);
    FoundIsHad(after, x.name);
    forall i | 0 <= i < |after| ensures after[i].1.Map? { assert after[i] in after; }
  }

  /** The app read from a file it was written into, whatever else the file holds. */
  lemma {:induction false} ParseOfApplied(top: Pairs, x: App, isUrl: string -> bool)
    requires x.image != "" && x.restartPolicy != ""
    requires Unique(MapAt(top, SERVICES)) && ServicesAreMaps(top, x.name)
    ensures ParseApp(Applied(top, x), Some(x.name), isUrl) == if ValidApp(Reread(x, isUrl), isUrl)
      then Some(Reread(x, isUrl)) else None
  {
    hide *;
    ServicesWritten(top, x);
    ParseNamed(Applied(top, x), x.name, isUrl);
    CandidateBack(x, MapAt(MapAt(top, SERVICES), x.name), isUrl);
  }

  // ── When the model survives ─────────────────────────────────────────────────

  ghost predicate FirstOfItsPort(ports: seq<Port>, i: nat)
    requires i < |ports|
  {
    forall j :: 0 <= j < i ==> ports[j].containerPort != ports[i].containerPort
  }

  /** A port with a domain is the first of its container port; one without has no other
      access settings. */
  ghost predicate PortsCanonical(ports: seq<Port>) {
    forall i :: 0 <= i < |ports| ==>
      if HasDomain(ports[i]) then FirstOfItsPort(ports, i) else ports[i] == Plain(ports[i])
  }

  /** At a position: untouched, or given a domain as the first of its container port. */
  ghost predicate AssignedAt(base: seq<Port>, r: seq<Port>, i: nat)
    requires i < |base| == |r|
  {
    && r[i].containerPort == base[i].containerPort
    && (r[i] == base[i] || (HasDomain(r[i]) && FirstOfItsPort(base, i)))
  }

  lemma {:induction false} AssignKeeps(ports: seq<Port>, a: Access, i: nat)
    requires i < |ports|
    ensures Assign(ports, a)[i] ==
      if a.domain != "" && ports[i].containerPort as real == a.containerPort && FirstOfItsPort(ports, i)
      then ports[i].(domain := Some(a.domain), tls := a.tls, publicPort := a.publicPort)
      else ports[i]
  {
    if a.domain != "" {
      if ports[0].containerPort as real == a.containerPort {
        if i > 0 && ports[i].containerPort as real == a.containerPort {
          assert ports[0].containerPort == ports[i].containerPort;
        }
      } else if i > 0 {
        AssignKeeps(ports[1..], a, i - 1);
        FirstTail(ports, i);
      }
    }
  }

  lemma {:induction false} FirstTail(ports: seq<Port>, i: nat)
    requires 0 < i < |ports|
    ensures FirstOfItsPort(ports, i) <==>
      FirstOfItsPort(ports[1..], i - 1) && ports[0].containerPort != ports[i].containerPort
  {
    assert forall j :: 0 < j < |ports| ==> ports[j] == ports[1..][j - 1];
  }

  lemma {:induction false} AllAssigned(base: seq<Port>, accesses: seq<Access>, i: nat)
    requires i < |base|
    ensures AssignedAt(base, AssignAll(base, accesses), i)
  {
    if accesses != [] {
      var front, a := accesses[..|accesses| - 1], accesses[|accesses| - 1];
      var r := AssignAll(base, front);
      forall j | 0 <= j < |base| ensures AssignedAt(base, r, j) && r[j].containerPort == base[j].containerPort {
        AllAssigned(base, front, j);
      }
      AssignKeeps(r, a, i);
      assert AssignAll(base, accesses) == Assign(r, a);
      assert FirstOfItsPort(r, i) <==> FirstOfItsPort(base, i);
    }
  }

  lemma {:induction false} AccessesSnoc(ports: seq<Port>, i: nat)
    requires i < |ports|
    ensures Accesses(ports[..i + 1]) == Accesses(ports[..i]) + if HasDomain(ports[i]) then [AccessOf(ports[i])] else []
  {
    if i == 0 {
      assert ports[..1] == [ports[0]] && ports[..0] == [] && ports[..1][1..] == [];
    } else {
      assert ports[..i + 1][1..] == ports[1..][..i] && ports[..i][1..] == ports[1..][..i - 1];
      AccessesSnoc(ports[1..], i - 1);
    }
  }

  lemma {:induction false} AssignLast(base: seq<Port>, accesses: seq<Access>, a: Access)
    ensures AssignAll(base, accesses + [a]) == Assign(AssignAll(base, accesses), a)
  {
    assert (accesses + [a])[..|accesses|] == accesses;
  }

  /** One port with a domain comes back, and no other port changes. */
  lemma {:induction false} PortComesBack(ports: seq<Port>, before: seq<Port>, i: nat, k: nat)
    requires PortsCanonical(ports) && i < |ports| == |before| && k < |ports| && HasDomain(ports[i])
    requires forall j :: 0 <= j < |ports| ==> before[j] == if j < i then ports[j] else Plain(ports[j])
    ensures Assign(before, AccessOf(ports[i]))[k] == if k <= i then ports[k] else Plain(ports[k])
  {
    AssignKeeps(before, AccessOf(ports[i]), k);
    OnlyFirst(ports, before, i, k);
    hide Assign;
  }

  /** The ports up to n as they were, the others without access. */
  ghost function BackTo(ports: seq<Port>, n: nat): seq<Port> {
    seq(|ports|, k requires 0 <= k < |ports| => if k < n then ports[k] else Plain(ports[k]))
  }

  /** Canonical ports come back one by one. */
  lemma {:induction false} PortsComeBack(ports: seq<Port>, n: nat)
    requires PortsCanonical(ports) && n <= |ports|
    ensures AssignAll(Each(ports, (p: Port) => Plain(p)), Accesses(ports[..n])) == BackTo(ports, n)
    decreases n
  {
    var base := Each(ports, (p: Port) => Plain(p));
    if n == 0 {
      assert Accesses(ports[..0]) == [] && base == BackTo(ports, 0);
    } else {
      PortsComeBack(ports, n - 1);
      AccessesSnoc(ports, n - 1);
      if HasDomain(ports[n - 1]) { AssignLast(base, Accesses(ports[..n - 1]), AccessOf(ports[n - 1])); }
      BackNext(ports, n - 1);
      assert n - 1 + 1 == n && Accesses(ports[..n - 1]) + [] == Accesses(ports[..n - 1]);
      hide AssignAll, Accesses, Assign, PortsCanonical, HasDomain, AccessOf, Plain, Each, BackTo;
    }
  }

  lemma {:induction false} BackNext(ports: seq<Port>, i: nat)
    requires PortsCanonical(ports) && i < |ports|
    ensures BackTo(ports, i + 1)
      == if HasDomain(ports[i]) then Assign(BackTo(ports, i), AccessOf(ports[i])) else BackTo(ports, i)
  {
    if HasDomain(ports[i]) {
      hide AccessOf, Assign, PortsCanonical, Plain, HasDomain;
      forall k | 0 <= k < |ports|
        ensures Assign(BackTo(ports, i), AccessOf(ports[i]))[k] == if k <= i then ports[k] else Plain(ports[k])
      {
        PortComesBack(ports, BackTo(ports, i), i, k);
      }
    } else {
      PlainAsIs(ports, i);
      hide PortsCanonical, Plain;
    }
  }

  /** A canonical port without a domain has no access settings. */
  lemma {:induction false} PlainAsIs(ports: seq<Port>, i: nat)
    requires PortsCanonical(ports) && i < |ports| && !HasDomain(ports[i])
    ensures Plain(ports[i]) == ports[i]
  {}

  lemma {:induction false} OnlyFirst(ports: seq<Port>, r: seq<Port>, i: nat, k: nat)
    requires |r| == |ports| && i < |ports| && k < |ports| && FirstOfItsPort(ports, i)
    requires forall j :: 0 <= j < |ports| ==> r[j].containerPort == ports[j].containerPort
    ensures r[k].containerPort == ports[i].containerPort && FirstOfItsPort(r, k) <==> k == i
  {
    if k > i && r[k].containerPort == ports[i].containerPort { assert r[i].containerPort == r[k].containerPort; }
    if k == i { forall j | 0 <= j < k
      ensures r[j].containerPort != r[k].containerPort { assert ports[j].containerPort != ports[i].containerPort; } }
  }

  /** The ports come back exactly when they are canonical. */
  lemma {:induction false} PortsExactly(ports: seq<Port>)
    ensures RereadPorts(ports) == ports <==> PortsCanonical(ports)
  {
    var base := Each(ports, (p: Port) => Plain(p));
    var r := RereadPorts(ports);
    if PortsCanonical(ports) {
      assert ports[..|ports|] == ports;
      forall k | 0 <= k < |ports| ensures r[k] == ports[k] { PortsComeBack(ports, |ports|); }
      assert r == ports;
    }
    if r == ports {
      forall i | 0 <= i < |ports| ensures if HasDomain(ports[i]) then FirstOfItsPort(ports, i)
        else ports[i] == Plain(ports[i]) {
        AllAssigned(base, Accesses(ports), i);
        if HasDomain(ports[i]) {
          forall j | 0 <= j < i ensures ports[j].containerPort != ports[i].containerPort {
            assert base[j].containerPort != base[i].containerPort;
          }
        }
      }
    }
  }

  /** No ":" in its parts, and bound exactly when its source is a path. */
  predicate VolumeCanonical(v: Mount) {
    ':' !in v.source && ':' !in v.target && !v.kind.Place? && (v.kind.Bind? <==> HasPrefix(v.source, "/"))
  }

  lemma {:induction false} SplitParts(s: string)
    ensures forall i :: 0 <= i < |Split(s, ':')| ==> ':' !in Split(s, ':')[i]
  {}

  lemma {:induction false} VolumesExactly(v: Mount)
    ensures ParseVolume(VolumeStr(v)) == v <==> VolumeCanonical(v)
  {
    SplitParts(VolumeStr(v));
    if ':' !in v.source && ':' !in v.target {
      hide Split;
      if v.readOnly {
        assert VolumeStr(v) == v.source + ":" + (v.target + ":" + "ro");
        SplitCons(v.source, v.target + ":" + "ro", ':');
        SplitCons(v.target, "ro", ':');
        SplitSingle("ro", ':');
      } else {
        assert VolumeStr(v) == v.source + ":" + v.target;
        SplitCons(v.source, v.target, ':');
        SplitSingle(v.target, ':');
      }
    }
  }

  // ── Hosts ───────────────────────────────────────────────────────────────────

  lemma {:induction false} FirstColonAt(s: string, i: nat)
    requires i < |s| && s[i] == ':' && forall k :: 0 <= k < i ==> s[k] != ':'
    ensures FirstColon(s) == i
  {}

  lemma {:induction false} HostRoundTrip(e: Entry)
    requires ':' !in e.0
    ensures HostEntry(HostOf(e)) == e
  {
    var h := HostOf(e);
    assert h[|e.0|] == ':' && h[..|e.0|] == e.0 && h[|e.0| + 1..] == e.1;
    FirstColonAt(h, |e.0|);
  }

  lemma {:induction false} EntryRoundTrip(h: string)
    requires ValidHost(h)
    ensures HostOf(HostEntry(h)) == h && ':' !in HostEntry(h).0
  {
    var i := FirstColon(h);
    assert h == h[..i] + [h[i]] + h[i + 1..];
  }

  lemma {:induction false} ReplaceMembers(ps: seq<Entry>, key: string, v: string)
    ensures forall p :: p in Replace(ps, key, v) ==> p in ps || p == (key, v)
  {
    if ps != [] { ReplaceMembers(ps[1..], key, v); }
  }

  lemma {:induction false} InsertMembers(ps: seq<Entry>, key: string, v: string)
    requires IndexLike(key)
    ensures forall p :: p in InsertIndex(ps, key, v) ==> p in ps || p == (key, v)
  {
    hide IndexLike, Index;
    if ps != [] { InsertMembers(ps[1..], key, v); }
  }

  lemma {:induction false} FromEntriesMembers(ps: seq<Entry>)
    ensures forall p :: p in FromEntries(ps) ==> p in ps
  {
    if ps != [] {
      var front, last := ps[..|ps| - 1], ps[|ps| - 1];
      assert ps == front + [last];
      FromEntriesMembers(front);
      var f := FromEntries(front);
      ReplaceMembers(f, last.0, last.1);
      hide InsertIndex, Replace, IndexLike;
      if !Has(f, last.0) && IndexLike(last.0) { InsertMembers(f, last.0, last.1); }
      assert (last.0, last.1) == last;
    }
  }

  /** The hosts come back exactly when an object keeps them as they are. */
  lemma {:induction false} HostsExactly(hosts: seq<string>)
    requires forall h :: h in hosts ==> ValidHost(h)
    ensures RereadHosts(hosts) == hosts <==> JsOrdered(Each(hosts, (h: string) => HostEntry(h)))
  {
    var es := Each(hosts, (h: string) => HostEntry(h));
    var kept := FromEntries(es);
    KeptExactly(es);
    FromEntriesMembers(es);
    forall i | 0 <= i < |hosts| ensures HostOf(es[i]) == hosts[i] && ':' !in es[i].0 {
      assert hosts[i] in hosts;
      EntryRoundTrip(hosts[i]);
    }
    hide FromEntries, JsOrdered, HostEntry, HostOf, ValidHost;
    if kept == es { assert RereadHosts(hosts) == hosts; }
    if RereadHosts(hosts) == hosts {
      assert |kept| == |hosts|;
      forall i | 0 <= i < |kept| ensures kept[i] == es[i] {
        assert kept[i] in kept && kept[i] in es;
        var j :| 0 <= j < |es| && es[j] == kept[i];
        HostRoundTrip(kept[i]);
        assert HostOf(kept[i]) == hosts[i];
      }
      assert kept == es;
    }
  }

  // ── The whole model ─────────────────────────────────────────────────────────

  /** What a model must be to come back as it was: ports with a domain first of their
      container port, no ":" in volume parts, objects in JavaScript's order with distinct
      keys, and no empty text where nothing is meant. */
  ghost predicate Canonical(x: App) {
    && PortsCanonical(x.ports) && (forall v :: v in x.volumes ==> VolumeCanonical(v))
    && JsOrdered(x.envs) && JsOrdered(x.labels) && JsOrdered(Each(x.extraHosts, (h: string) => HostEntry(h)))
    && x.hostname != Some("") && x.user != Some("") && x.command != Some("")
  }

  lemma {:induction false} VolumesAllExactly(vs: seq<Mount>)
    ensures Each(vs, (v: Mount) => ParseVolume(VolumeStr(v))) == vs <==> forall v :: v in vs ==> VolumeCanonical(v)
  {
    var r := Each(vs, (v: Mount) => ParseVolume(VolumeStr(v)));
    forall i | 0 <= i < |vs| ensures r[i] == vs[i] <==> VolumeCanonical(vs[i]) { VolumesExactly(vs[i]); }
    hide ParseVolume, VolumeStr, VolumeCanonical;
    if forall v :: v in vs ==> VolumeCanonical(v) {
      forall i | 0 <= i < |vs| ensures r[i] == vs[i] { assert vs[i] in vs; }
      assert r == vs;
    }
    if r == vs {
      forall v | v in vs ensures VolumeCanonical(v) { var i :| 0 <= i < |vs| && vs[i] == v; }
    }
  }

  /** A valid model is read as it was written exactly when it is canonical. */
  lemma {:induction false} RereadExactly(x: App, isUrl: string -> bool)
    requires ValidApp(x, isUrl) && !isUrl("")
    ensures Reread(x, isUrl) == x <==> Canonical(x)
  {
    PortsExactly(x.ports);
    VolumesAllExactly(x.volumes);
    KeptExactly(x.envs);
    KeptExactly(x.labels);
    HostsExactly(x.extraHosts);
    hide RereadPorts, FromEntries, RereadHosts, PortsCanonical, JsOrdered, ParseVolume, VolumeStr, VolumeCanonical,
      HostEntry, ValidPort, ValidName, ValidHost, HasPrefix, Each;
    assert x.memoryLimit != Some("");
    FieldsExactly(x, isUrl);
  }

  lemma {:induction false} FieldsExactly(x: App, isUrl: string -> bool)
    requires x.memoryLimit != Some("") && (x.pinnedUrl.Some? ==> isUrl(x.pinnedUrl.value)) && !isUrl("")
    ensures Reread(x, isUrl) == x <==>
      && RereadPorts(x.ports) == x.ports && FromEntries(x.envs) == x.envs
        && Each(x.volumes, (v: Mount) => ParseVolume(VolumeStr(v))) == x.volumes
      && FromEntries(x.labels) == x.labels && RereadHosts(x.extraHosts) == x.extraHosts
      && x.hostname != Some("") && x.user != Some("") && x.command != Some("")
  {
    hide RereadPorts, FromEntries, RereadHosts, ParseVolume, VolumeStr, Each;
  }

  /** Writing a valid model into any file and reading the file gives the model back exactly
      when the model is canonical. */
  lemma {:induction false} RoundTripExactly(top: Pairs, x: App, isUrl: string -> bool)
    requires ValidApp(x, isUrl) && !isUrl("")
    requires Unique(MapAt(top, SERVICES)) && ServicesAreMaps(top, x.name)
    ensures ParseApp(Applied(top, x), Some(x.name), isUrl) == Some(x) <==> Canonical(x)
  {
    assert x.image != "" && x.restartPolicy != "";
    hide *;
    ParseOfApplied(top, x, isUrl);
    RereadExactly(x, isUrl);
  }

  /** A new file needs no main service named. */
  lemma {:induction false} FreshRoundTrip(x: App, main: Option<string>, isUrl: string -> bool)
    requires ValidApp(x, isUrl) && !isUrl("") && Canonical(x)
    ensures ParseApp(Applied([], x), main, isUrl) == Some(x)
  {
    RoundTripExactly([], x, isUrl);
    ServicesOf([], x);
    hide ValidApp, Candidate, NewService, Canonical, Applied;
  }
}
