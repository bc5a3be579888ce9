/** Writing an app's form model into a Compose file (packages/compose/src/compose.ts). */
module Compose {
  import opened Text
  import opened StableSort
  import opened YamlTree

  // ── The form model (packages/compose/src/model.ts) ──────────────────────────

  datatype Port = Port(hostPort: nat, containerPort: nat, udp: bool, domain: Option<string>, tls: bool,
    publicPort: Option<nat>)

  datatype VolumeKind = Bind | Named | Place

  datatype Mount = Mount(kind: VolumeKind, source: string, target: string, readOnly: bool)

  type Entry = (string, string)

  datatype App = App(
    name: string, image: string, ports: seq<Port>, envs: seq<Entry>, volumes: seq<Mount>, networkNames: seq<string>,
    labels: seq<Entry>, capAdd: seq<string>, capDrop: seq<string>, extraHosts: seq<string>, restartPolicy: string,
    hostname: Option<string>, user: Option<string>, command: Option<string>, cpuLimit: Option<real>,
    memoryLimit: Option<string>, pinnedUrl: Option<string>)

  // ── Keys ────────────────────────────────────────────────────────────────────

  const SERVICES := "services"
  const IMAGE := "image"
  const PORTS := "ports"
  const ENVIRONMENT := "environment"
  const VOLUMES := "volumes"
  const NETWORKS := "networks"
  const LABELS := "labels"
  const CAP_ADD := "cap_add"
  const CAP_DROP := "cap_drop"
  const EXTRA_HOSTS := "extra_hosts"
  const RESTART := "restart"
  const HOSTNAME := "hostname"
  const USER := "user"
  const COMMAND := "command"
  const CPUS := "cpus"
  const MEM_LIMIT := "mem_limit"
  const X_HSI := "x-hsi"
  const CONTAINER_NAME := "container_name"
  const PINNED_URL := "pinnedUrl"
  /** Assigning to it sets an object's prototype and makes no key. */
  const PROTO := "__proto__"

  /** The managed keys of a service, in the order they are written. */
  const ORDER: seq<string> := [
    IMAGE, PORTS, ENVIRONMENT, VOLUMES, NETWORKS, LABELS, CAP_ADD, CAP_DROP, EXTRA_HOSTS, RESTART, HOSTNAME, USER,
    COMMAND, CPUS, MEM_LIMIT, X_HSI, CONTAINER_NAME]

  lemma {:induction false} OrderDistinct()
    ensures |ORDER| == 17 && forall i, j :: 0 <= i < j < |ORDER| ==> ORDER[i] != ORDER[j]
  {}

  lemma {:induction false} SectionsDistinct()
    ensures SERVICES != NETWORKS && SERVICES != VOLUMES && NETWORKS != VOLUMES && PINNED_URL != PORTS
    ensures !IndexLike(PINNED_URL) && !IndexLike(PORTS) && PROTO != PINNED_URL && PROTO != PORTS
  {
    assert !IsDigit(PINNED_URL[0]) && !IsDigit(PORTS[0]) && PROTO[0] == '_';
  }

  // ── The values written ──────────────────────────────────────────────────────

  function PortStr(p: Port): string {
    Decimal(p.hostPort) + ":" + Decimal(p.containerPort) + if p.udp then "/udp" else ""
  }

  function VolumeStr(v: Mount): string { v.source + ":" + v.target + if v.readOnly then ":ro" else "" }

  /** A host as its name and address, cut at the first ":". */
  function HostEntry(h: string): Entry {
    var i := FirstColon(h);
    if i < |h| then (h[..i], h[i + 1..])
    // slice(0, -1) and slice(0)
    else (if h == "" then "" else h[..|h| - 1], h)
  }

  function FirstColon(s: string): (i: nat)
    ensures i <= |s| && (i < |s| ==> s[i] == ':') && forall k :: 0 <= k < i ==> s[k] != ':'
  {
    if s == "" || s[0] == ':' then 0 else 1 + FirstColon(s[1..])
  }

  function Each<A, B>(xs: seq<A>, f: A -> B): (r: seq<B>)
    ensures |r| == |xs| && forall i :: 0 <= i < |xs| ==> r[i] == f(xs[i])
  {
    seq(|xs|, i requires 0 <= i < |xs| => f(xs[i]))
  }

  function Texts(xs: seq<string>): (r: seq<Node>)
    ensures |r| == |xs| && forall i :: 0 <= i < |xs| ==> r[i] == Str(xs[i])
  {
    Each(xs, (x: string) => Str(x))
  }

  function EntryNodes(es: seq<Entry>): (r: Pairs)
    ensures |r| == |es| && forall i :: 0 <= i < |es| ==> r[i] == (es[i].0, Str(es[i].1))
  {
    Each(es, (e: Entry) => (e.0, Str(e.1)))
  }

  function TextNode(s: string): Option<Node> { if s == "" then None else Some(Str(s)) }

  function OptText(s: Option<string>): Option<Node> { if s == None then None else TextNode(s.value) }

  function ListNode(xs: seq<string>): Option<Node> { if xs == [] then None else Some(Seq(Texts(xs))) }

  /** A list of entries as an object. */
  function ObjectNode(es: seq<Entry>): Option<Node> {
    if es == [] then None else Some(Map(EntryNodes(FromEntries(es))))
  }

  predicate HasDomain(p: Port) { p.domain.Some? && p.domain.value != "" }

  function DomainPort(p: Port): Node {
    Map([("containerPort", Num(p.containerPort as real)),
      ("domain", if p.domain.Some? then Str(p.domain.value) else Null),
         ("tls", Bool(p.tls)), ("publicPort", if p.publicPort.Some? then Num(p.publicPort.value as real) else Null)])
  }

  function DomainPorts(ports: seq<Port>): seq<Node> {
    Each(Filter(ports, (p: Port) => HasDomain(p)), (p: Port) => DomainPort(p))
  }

  predicate NotOwn(p: (string, Node)) { p.0 != PINNED_URL && p.0 != PORTS }

  /** object[key] = v. */
  function JsAssign(ps: Pairs, key: string, v: Node): Pairs { if key == PROTO then ps else JsSet(ps, key, v) }

  predicate CarriesOver(p: (string, Node)) { NotOwn(p) && p.0 != PROTO }

  /** What x-hsi holds besides what the forms represent, and can be assigned. */
  function Carried(service: Pairs): Pairs {
    Filter(FromEntries(MapAt(service, X_HSI)), (p: (string, Node)) => CarriesOver(p))
  }

  function XHsi(x: App, service: Pairs): Pairs {
    Carried(service)
    + (if x.pinnedUrl.Some? && x.pinnedUrl.value != "" then [(PINNED_URL, Str(x.pinnedUrl.value))] else [])
    + (if DomainPorts(x.ports) != [] then [(PORTS, Seq(DomainPorts(x.ports)))] else [])
  }

  /** The managed keys with their values; None for one that is left out. */
  function Settings(x: App, xhsi: Pairs): seq<(string, Option<Node>)> {
    [
      (IMAGE, TextNode(x.image)),
      (PORTS, ListNode(Each(x.ports, (p: Port) => PortStr(p)))),
      (ENVIRONMENT, ObjectNode(x.envs)),
      (VOLUMES, ListNode(Each(x.volumes, (v: Mount) => VolumeStr(v)))),
      (NETWORKS, ListNode(x.networkNames)),
      (LABELS, ObjectNode(x.labels)),
      (CAP_ADD, ListNode(x.capAdd)),
      (CAP_DROP, ListNode(x.capDrop)),
      (EXTRA_HOSTS, ObjectNode(Each(x.extraHosts, (h: string) => HostEntry(h)))),
      (RESTART, if x.restartPolicy == "no" then None else TextNode(x.restartPolicy)),
      (HOSTNAME, OptText(x.hostname)),
      (USER, OptText(x.user)),
      (COMMAND, OptText(x.command)),
      (CPUS, if x.cpuLimit.Some? then Some(Num(x.cpuLimit.value)) else None),
      (MEM_LIMIT, OptText(x.memoryLimit)),
      (X_HSI, if xhsi == [] then None else Some(Map(xhsi))),
      (CONTAINER_NAME, TextNode(x.name))
    ]
  }

  function Somes(settings: seq<(string, Option<Node>)>): Pairs {
    if settings == [] then []
    else (if settings[0].1.Some? then [(settings[0].0, settings[0].1.value)] else []) + Somes(settings[1..])
  }

  predicate Unmanaged(p: (string, Node)) { p.0 !in ORDER }

  function Unknown(service: Pairs): Pairs { Filter(service, (p: (string, Node)) => Unmanaged(p)) }

  /** A service as it is written: what the forms do not know, then the managed keys. */
  function NewService(x: App, service: Pairs): Pairs {
    Unknown(service) + Somes(Settings(x, XHsi(x, service)))
  }

  // ── Named volumes ───────────────────────────────────────────────────────────

  predicate AlphaNum(c: char) { 'a' <= c <= 'z' || 'A' <= c <= 'Z' || '0' <= c <= '9' }

  predicate IsVolumeName(s: string) {
    s != "" && AlphaNum(s[0]) && forall i :: 0 <= i < |s| ==> AlphaNum(s[i]) || s[i] in {'_', '.', '-'}
  }

  /** The names that are a volume's: letters and digits, and after the first also these. */
  lemma {:induction false} VolumeNames(s: string)
    ensures IsVolumeName(s) <==> s != "" && s[0] !in "_.-" && forall c :: c in s ==> c in LOWER + UPPER + DIGITS + "_.-"
  {
    forall c ensures VolumeChar(c) { VolumeChars(c); }
    if s != "" { assert s[0] in s && VolumeChar(s[0]); }
    assert forall i :: 0 <= i < |s| ==> s[i] in s && VolumeChar(s[i]);
    hide LOWER, UPPER, DIGITS, AlphaNum;
  }

  ghost predicate VolumeChar(c: char) {
    && (AlphaNum(c) || c in {'_', '.', '-'} <==> c in LOWER + UPPER + DIGITS + "_.-")
    && (AlphaNum(c) <==> c in LOWER + UPPER + DIGITS + "_.-" && c !in "_.-")
  }

  lemma {:induction false} VolumeChars(c: char)
    ensures VolumeChar(c)
  {
    LowerIs(c);
    UpperIs(c);
    DigitIs(c);
    assert c in "_.-" <==> c in {'_', '.', '-'};
    hide LOWER, UPPER, DIGITS;
  }

  /** The source of one item of a volumes list, in short or long syntax. */
  function VolumeSource(item: Node): Option<string> {
    match item
    case Str(s) => Some(Split(s, ':')[0])
    case Map(ps) =>
      var kind, source := Find(ps, "type"), Find(ps, "source");
      if kind in {None, Some(Null), Some(Str("volume"))} && source.Some?
        && source.value.Str? then Some(source.value.text) else None
    case _ => None
  }

  function NamedSources(items: seq<Node>): seq<string> {
    if items == [] then []
    else
      var s := VolumeSource(items[0]);
      (if s.Some? && IsVolumeName(s.value) then [s.value] else []) + NamedSources(items[1..])
  }

  function ServiceSources(service: Node): seq<string> {
    if service.Map? then
      var v := Find(service.pairs, VOLUMES);
      if v.Some? && v.value.Seq? then NamedSources(v.value.items) else []
    else []
  }

  function AllSources(services: Pairs): seq<string> {
    if services == [] then [] else ServiceSources(services[0].1) + AllSources(services[1..])
  }

  /** Each once, where it is first met. */
  function Once(xs: seq<string>): (r: seq<string>)
    ensures forall x :: x in r <==> x in xs
    ensures forall i, j :: 0 <= i < j < |r| ==> r[i] != r[j]
  {
    if xs == [] then []
    else
      var front := Once(xs[..|xs| - 1]);
      if xs[|xs| - 1] in front then front else front + [xs[|xs| - 1]]
  }

  /** namedVolumeRefs. */
  function Refs(top: Pairs): seq<string> { Once(AllSources(FromEntries(MapAt(top, SERVICES)))) }

  /** What every JavaScript object answers to, of the names a volume can have. */
  const INHERITED: set<string> := {
    "constructor", "hasOwnProperty", "isPrototypeOf", "propertyIsEnumerable", "toLocaleString", "toString", "valueOf"}

  /** The in operator. */
  predicate InObject(name: string, declared: Pairs) { Has(declared, name) || name in INHERITED }

  function Declaration(name: string): Node { Map([("name", Str(name))]) }

  predicate Generated(p: (string, Node)) { p.1 == Declaration(p.0) }

  function Missing(top: Pairs): seq<string> { Filter(Refs(top), (r: string) => !InObject(r, MapAt(top, VOLUMES))) }

  function Declarations(names: seq<string>): (r: Pairs)
    ensures |r| == |names| && forall i :: 0 <= i < |names| ==> r[i] == (names[i], Declaration(names[i]))
  {
    Each(names, (n: string) => (n, Declaration(n)))
  }

  function Position(ps: Pairs, key: string): (i: nat)
    ensures i <= |ps| && (i < |ps| ==> ps[i].0 == key) && forall k :: 0 <= k < i ==> ps[k].0 != key
  {
    if ps == [] || ps[0].0 == key then 0 else 1 + Position(ps[1..], key)
  }

  /** The volumes section before the services one, when it came after. */
  function Placed(ps: Pairs): Pairs {
    var v, s := Position(ps, VOLUMES), Position(ps, SERVICES);
    if s < v < |ps| then ps[..s] + [ps[v]] + ps[s..v] + ps[v + 1..] else ps
  }

  function WithDeclarations(top: Pairs): Pairs {
    var missing := Missing(top);
    if missing == [] then top
    else
      var place := if IsMapAt(top, VOLUMES) then top else Placed(Put(top, VOLUMES, Map([])));
      Put(place, VOLUMES, Map(MapAt(top, VOLUMES) + Declarations(missing)))
  }

  /** A declaration that stays: referenced, or not of HSI's making. */
  predicate Stays(p: (string, Node), refs: seq<string>) { p.0 in refs || !Generated(p) }

  function WithoutStale(top: Pairs, refs: seq<string>): Pairs {
    if IsMapAt(top, VOLUMES) then
      var kept := Filter(MapAt(top, VOLUMES), (p: (string, Node)) => Stays(p, refs));
      if kept == [] then Drop(top, VOLUMES) else Put(top, VOLUMES, Map(kept))
    else top
  }

  /** syncVolumeDeclarations. */
  function Synced(top: Pairs): Pairs { WithoutStale(WithDeclarations(top), Refs(top)) }

  // ── The whole ───────────────────────────────────────────────────────────────

  function ExternalNetwork(name: string): Node { Map([("external", Bool(true)), ("name", Str(name))]) }

  function AddNetworks(nets: Pairs, names: seq<string>): Pairs
    decreases |names|
  {
    if names == [] then nets
    else AddNetworks(if Has(nets, names[0]) then nets else Put(nets, names[0], ExternalNetwork(names[0])), names[1..])
  }

  function WithNetworks(top: Pairs, names: seq<string>): Pairs {
    if names == [] then top else Put(top, NETWORKS, Map(AddNetworks(MapAt(top, NETWORKS), names)))
  }

  function WithService(top: Pairs, x: App): Pairs {
    var services := MapAt(top, SERVICES);
    Put(top, SERVICES, Map(Put(services, x.name, Map(NewService(x, MapAt(services, x.name))))))
  }

  /** applyModel. */
  function Applied(top: Pairs, x: App): Pairs { Synced(WithService(WithNetworks(top, x.networkNames), x)) }
}
