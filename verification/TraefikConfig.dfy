/**
  The dynamic proxy configuration compiled from the installed apps: which routers exist, what they point at, and
  that everything they mention is defined.
 */
module TraefikConfig {
  import opened Options
  import opened AppStatus

  datatype Port = Http | Mqtt

  datatype Entrypoint = Entrypoint(container: string, port: string, kind: Port)

  datatype AppInfo = AppInfo(name: string, entrypoints: seq<Entrypoint>)

  datatype Router = Router(rule: string, entryPoint: string, service: string, middlewares: seq<string>)

  /** A missing TCP section is None; in a present one the empty tables are left out as well. */
  datatype Tcp = Tcp(routers: map<string, Router>, services: map<string, string>)

  datatype Config = Config(
    routers: map<string, Router>,
    services: map<string, string>,
    middlewares: set<string>,
    tcp: Option<Tcp>)

  function PortText(kind: Port): string {
    if kind.Http? then "http" else "mqtt"
  }

  function Key(name: string, kind: Port): string {
    name + "_" + PortText(kind)
  }

  // ---- the core section ----

  function WebEntry(disableSsl: bool): string {
    if disableSsl then "http" else "https"
  }

  const MIDDLEWARES := {"strip", "auth-private", "auth-management", "auth-public", "auth", "app-error"}

  const INTERNAL_SERVICE := "api@internal"

  function CoreRouters(domain: string, web: string): map<string, Router> {
    map["shard_core_public" := Router("PathPrefix(`/core/public`)", web, "shard_core", ["strip", "auth-public"]),
        "shard_core_private" := Router("PathPrefix(`/core/protected`)", web, "shard_core", ["strip", "auth-private"]),
        "shard_core_management" :=
          Router("PathPrefix(`/core/management`)", web, "shard_core", ["strip", "auth-management"]),
        "web-terminal" := Router("PathPrefix(`/`)", web, "web-terminal", []),
        "traefik" := Router("HostRegexp(`traefik." + domain + "`)", web, INTERNAL_SERVICE, ["auth-private"])]
  }

  const CORE_SERVICES := map["shard_core" := "http://shard_core:80/", "web-terminal" := "http://web-terminal:80/"]

  // ---- the apps ----

  function AppRouter(name: string, kind: Port, domain: string, web: string): Router {
    if kind.Http? then Router("Host(`" + name + "." + domain + "`)", web, Key(name, kind), ["app-error", "auth"])
    else Router("HostSNI(`" + name + "." + domain + "`)", "mqtt", Key(name, kind), [])
  }

  function Target(e: Entrypoint): string {
    if e.kind.Http? then "http://" + e.container + ":" + e.port else e.container + ":" + e.port
  }

  /** The entrypoints of all apps, in the order they are compiled. */
  datatype Entry = Entry(name: string, ep: Entrypoint)

  function EntriesOf(name: string, eps: seq<Entrypoint>): seq<Entry> {
    if eps == [] then [] else EntriesOf(name, eps[..|eps| - 1]) + [Entry(name, eps[|eps| - 1])]
  }

  function Flatten(apps: seq<AppInfo>): seq<Entry> {
    if apps == [] then []
    else Flatten(apps[..|apps| - 1]) + EntriesOf(apps[|apps| - 1].name, apps[|apps| - 1].entrypoints)
  }

  ghost predicate HasEntry(entries: seq<Entry>, name: string, kind: Port) {
    exists i :: 0 <= i < |entries| && entries[i].name == name && entries[i].ep.kind == kind
  }

  /** The last entrypoint of the kind decides where the service points. */
  ghost predicate LastEntry(entries: seq<Entry>, name: string, kind: Port, i: nat) {
    && i < |entries| && entries[i].name == name && entries[i].ep.kind == kind
    && forall j :: i < j < |entries| ==> !(entries[j].name == name && entries[j].ep.kind == kind)
  }

  function Core(domain: string, web: string): Config {
    Config(CoreRouters(domain, web), CORE_SERVICES, MIDDLEWARES, Some(Tcp(map[], map[])))
  }

  function AddEntry(c: Config, e: Entry, domain: string, web: string): Config
    requires c.tcp.Some?
  {
    var key := Key(e.name, e.ep.kind);
    var router := AppRouter(e.name, e.ep.kind, domain, web);
    if e.ep.kind.Http? then c.(routers := c.routers[key := router], services := c.services[key := Target(e.ep)])
    else
      c.(tcp := Some(Tcp(c.tcp.value.routers[key := router], c.tcp.value.services[key := Target(e.ep)])))
  }

  function AddEntries(core: Config, entries: seq<Entry>, domain: string, web: string): (c: Config)
    requires core.tcp.Some?
    ensures c.tcp.Some? && c.middlewares == core.middlewares
  {
    if entries == [] then core
    else AddEntry(AddEntries(core, entries[..|entries| - 1], domain, web), entries[|entries| - 1], domain, web)
  }

  /** Empty tables, and an empty TCP section, are dropped at the end. */
  function Finished(c: Config): Config {
    if c.tcp.Some? && c.tcp.value.routers == map[] && c.tcp.value.services == map[] then c.(tcp := None) else c
  }

  // ---- the compiler as the source runs it ----

  class Compiler {
    const domain: string
    const disableSsl: bool
    var model: Config

    constructor (domain: string, disableSsl: bool)
      ensures this.domain == domain && this.disableSsl == disableSsl
      ensures model == Core(domain, WebEntry(disableSsl))
    {
      this.domain, this.disableSsl := domain, disableSsl;
      this.model := Core(domain, WebEntry(disableSsl));
    }

    method AddRouter(name: string, ep: Entrypoint)
      requires model.tcp.Some?
      modifies this`model
      ensures model.tcp.Some? && model.services == old(model).services && model.middlewares == old(model).middlewares
      ensures model.tcp.value.services == old(model).tcp.value.services
      ensures model.routers == if ep.kind.Http?
        then old(model).routers[Key(name, Http) := AppRouter(name, Http, domain, WebEntry(disableSsl))]
        else old(model).routers
      ensures model.tcp.value.routers == if ep.kind.Mqtt?
        then old(model).tcp.value.routers[Key(name, Mqtt) := AppRouter(name, Mqtt, domain, WebEntry(disableSsl))]
        else old(model).tcp.value.routers
    {
      var key := name + "_" + PortText(ep.kind);
      if ep.kind == Http {
        var web := if disableSsl then "http" else "https";
        var router := Router("Host(`" + name + "." + domain + "`)", web, key, ["app-error", "auth"]);
        model := model.(routers := model.routers[key := router]);
      } else {
        var router := Router("HostSNI(`" + name + "." + domain + "`)", "mqtt", key, []);
        model := model.(tcp := Some(model.tcp.value.(routers := model.tcp.value.routers[key := router])));
      }
    }

    method AddService(name: string, ep: Entrypoint)
      requires model.tcp.Some?
      modifies this`model
      ensures model.tcp.Some? && model.routers == old(model).routers && model.middlewares == old(model).middlewares
      ensures model.tcp.value.routers == old(model).tcp.value.routers
      ensures model.services == if ep.kind.Http?
        then old(model).services[Key(name, Http) := Target(ep)] else old(model).services
      ensures model.tcp.value.services == if ep.kind.Mqtt?
        then old(model).tcp.value.services[Key(name, Mqtt) := Target(ep)] else old(model).tcp.value.services
    {
      var key := name + "_" + PortText(ep.kind);
      if ep.kind == Http {
        model := model.(services := model.services[key := "http://" + ep.container + ":" + ep.port]);
      } else {
        var services := model.tcp.value.services[key := ep.container + ":" + ep.port];
        model := model.(tcp := Some(model.tcp.value.(services := services)));
      }
    }

    /** _add_router and _add_service for one entrypoint. */
    method AddEntrypoint(name: string, ep: Entrypoint)
      requires model.tcp.Some?
      modifies this`model
      ensures model == AddEntry(old(model), Entry(name, ep), domain, WebEntry(disableSsl))
    {
      AddRouter(name, ep);
      AddService(name, ep);
    }

    method AddApp(app: AppInfo, ghost core: Config, ghost before: seq<Entry>)
      requires core.tcp.Some? && model == AddEntries(core, before, domain, WebEntry(disableSsl))
      modifies this`model
      ensures model ==
        AddEntries(core, before + EntriesOf(app.name, app.entrypoints), domain, WebEntry(disableSsl))
    {
      var eps := app.entrypoints;
      assert before + EntriesOf(app.name, eps[..0]) == before;
      for j := 0 to |eps|
        invariant model == AddEntries(core, before + EntriesOf(app.name, eps[..j]), domain, WebEntry(disableSsl))
      {
        AddEntrypoint(app.name, eps[j]);
        AddNextEntry(core, before, app.name, eps, j, domain, WebEntry(disableSsl));
      }
      assert eps[..|eps|] == eps;
    }

    method Compile(apps: seq<AppInfo>)
      requires model == Core(domain, WebEntry(disableSsl))
      modifies this`model
      ensures model == Compiled(apps, domain, WebEntry(disableSsl))
    {
      ghost var core := model;
      for i := 0 to |apps|
        invariant model == AddEntries(core, Flatten(apps[..i]), domain, WebEntry(disableSsl))
      {
        AddApp(apps[i], core, Flatten(apps[..i]));
        assert apps[..i + 1][..i] == apps[..i];
      }
      assert apps[..|apps|] == apps;
      if |model.tcp.value.routers| == 0 && |model.tcp.value.services| == 0 {
        model := model.(tcp := None);
      }
    }
  }

  lemma AddEntriesSnoc(core: Config, entries: seq<Entry>, e: Entry, domain: string, web: string)
    requires core.tcp.Some?
    ensures AddEntries(core, entries + [e], domain, web) ==
      AddEntry(AddEntries(core, entries, domain, web), e, domain, web)
  {
    assert (entries + [e])[..|entries|] == entries;
  }

  lemma AddNextEntry(core: Config, before: seq<Entry>, name: string, eps: seq<Entrypoint>, j: nat,
                     domain: string, web: string)
    requires core.tcp.Some? && j < |eps|
    ensures AddEntries(core, before + EntriesOf(name, eps[..j + 1]), domain, web) ==
      AddEntry(AddEntries(core, before + EntriesOf(name, eps[..j]), domain, web), Entry(name, eps[j]), domain, web)
  {
    var upTo, entry := before + EntriesOf(name, eps[..j]), Entry(name, eps[j]);
    assert eps[..j + 1][..j] == eps[..j];
    assert EntriesOf(name, eps[..j + 1]) == EntriesOf(name, eps[..j]) + [entry];
    assert before + EntriesOf(name, eps[..j + 1]) == upTo + [entry];
    AddEntriesSnoc(core, upTo, entry, domain, web);
  }

  function Compiled(apps: seq<AppInfo>, domain: string, web: string): Config {
    Finished(AddEntries(Core(domain, web), Flatten(apps), domain, web))
  }

  // ---- keys ----

  /** Different apps, or different kinds, never share a key. */
  lemma KeyInjective(n1: string, k1: Port, n2: string, k2: Port)
    requires Key(n1, k1) == Key(n2, k2)
    ensures n1 == n2 && k1 == k2
  {
    var a, b := Key(n1, k1), Key(n2, k2);
    assert a[|a| - 1] == PortText(k1)[3] && b[|b| - 1] == PortText(k2)[3];
    assert a[..|a| - 5] == n1 && b[..|b| - 5] == n2;
  }

  predicate IsCoreRouter(key: string) {
    key in {"shard_core_public", "shard_core_private", "shard_core_management", "web-terminal", "traefik"}
  }

  /** No app key is the key of a core router or service. */
  lemma KeyIsNotCore(name: string, kind: Port)
    ensures !IsCoreRouter(Key(name, kind)) && Key(name, kind) !in CORE_SERVICES
  {
    var key := Key(name, kind);
    assert key[|key| - 1] == PortText(kind)[3] && key[|key| - 3] == PortText(kind)[1];
    assert key[|key| - 5] == '_';
  }

  // ---- what the fold computes ----

  /** Routers are those of the core and exactly one per name that has such an entrypoint. */
  ghost predicate ExactRouters(entries: seq<Entry>, kind: Port, core: map<string, Router>, routers: map<string, Router>,
                               domain: string, web: string) {
    && (forall k :: k in routers <==> k in core || exists n :: HasEntry(entries, n, kind) && k == Key(n, kind))
    && (forall k :: k in core ==> k in routers && routers[k] == core[k])
    && (forall n :: HasEntry(entries, n, kind) ==>
          Key(n, kind) in routers && routers[Key(n, kind)] == AppRouter(n, kind, domain, web))
  }

  /** Services likewise, each pointing where the last such entrypoint of the name says. */
  ghost predicate ExactServices(entries: seq<Entry>, kind: Port, core: map<string, string>,
                                services: map<string, string>) {
    && (forall k :: k in services <==> k in core || exists n :: HasEntry(entries, n, kind) && k == Key(n, kind))
    && (forall k :: k in core ==> k in services && services[k] == core[k])
    && (forall n, i: nat :: LastEntry(entries, n, kind, i) ==>
          Key(n, kind) in services && services[Key(n, kind)] == Target(entries[i].ep))
  }

  /** No app key is taken by the core. */
  ghost predicate NoCoreKey(kind: Port, core: map<string, Router>, coreServices: map<string, string>) {
    forall n :: Key(n, kind) !in core && Key(n, kind) !in coreServices
  }

  lemma HasEntrySnoc(front: seq<Entry>, e: Entry, name: string, kind: Port)
    ensures HasEntry(front + [e], name, kind) <==> HasEntry(front, name, kind) || (e.name == name && e.ep.kind == kind)
  {
    var entries := front + [e];
    if HasEntry(front, name, kind) {
      var i :| 0 <= i < |front| && front[i].name == name && front[i].ep.kind == kind;
      assert entries[i] == front[i];
    }
    if e.name == name && e.ep.kind == kind {
      assert entries[|front|] == e;
    }
  }

  lemma LastEntrySnoc(front: seq<Entry>, e: Entry, name: string, kind: Port, i: nat)
    requires LastEntry(front + [e], name, kind, i)
    ensures if e.name == name && e.ep.kind == kind then i == |front| else LastEntry(front, name, kind, i)
  {
    var entries := front + [e];
    assert entries[|front|] == e;
    if !(e.name == name && e.ep.kind == kind) {
      assert entries[i] == front[i];
      forall j | i < j < |front| ensures !(front[j].name == name && front[j].ep.kind == kind) {
        assert entries[j] == front[j];
      }
    }
  }

  /** An entry of another kind does not matter. */
  lemma ExactOther(front: seq<Entry>, e: Entry, kind: Port,
                   core: map<string, Router>, coreServices: map<string, string>,
                   routers: map<string, Router>, services: map<string, string>, domain: string, web: string)
    requires ExactRouters(front, kind, core, routers, domain, web) && ExactServices(front, kind, coreServices, services)
    requires e.ep.kind != kind
    ensures ExactRouters(front + [e], kind, core, routers, domain, web)
    ensures ExactServices(front + [e], kind, coreServices, services)
  {
    forall n ensures HasEntry(front + [e], n, kind) == HasEntry(front, n, kind) {
      HasEntrySnoc(front, e, n, kind);
    }
    forall n, i: nat | LastEntry(front + [e], n, kind, i)
      ensures Key(n, kind) in services && services[Key(n, kind)] == Target((front + [e])[i].ep)
    {
      LastEntrySnoc(front, e, n, kind, i);
      assert (front + [e])[i] == front[i];
    }
  }

  /** An entry of the kind adds the router of its name, or writes the same one again. */
  lemma ExactRoutersSnoc(front: seq<Entry>, e: Entry, kind: Port,
                         core: map<string, Router>, routers: map<string, Router>, domain: string, web: string)
    requires ExactRouters(front, kind, core, routers, domain, web) && e.ep.kind == kind
    requires Key(e.name, kind) !in core
    ensures ExactRouters(front + [e], kind, core,
                         routers[Key(e.name, kind) := AppRouter(e.name, kind, domain, web)], domain, web)
  {
    var entries, key := front + [e], Key(e.name, kind);
    var routers' := routers[key := AppRouter(e.name, kind, domain, web)];
    forall n ensures HasEntry(entries, n, kind) <==> HasEntry(front, n, kind) || n == e.name {
      HasEntrySnoc(front, e, n, kind);
    }
    forall n | HasEntry(entries, n, kind)
      ensures Key(n, kind) in routers' && routers'[Key(n, kind)] == AppRouter(n, kind, domain, web)
    {
      if Key(n, kind) == key {
        KeyInjective(n, kind, e.name, kind);
      }
    }
  }

  /** An entry of the kind points the service of its name at itself. */
  lemma ExactServicesSnoc(front: seq<Entry>, e: Entry, kind: Port,
                          core: map<string, string>, services: map<string, string>)
    requires ExactServices(front, kind, core, services) && e.ep.kind == kind
    requires Key(e.name, kind) !in core
    ensures ExactServices(front + [e], kind, core, services[Key(e.name, kind) := Target(e.ep)])
  {
    var entries, key := front + [e], Key(e.name, kind);
    var services' := services[key := Target(e.ep)];
    forall n ensures HasEntry(entries, n, kind) <==> HasEntry(front, n, kind) || n == e.name {
      HasEntrySnoc(front, e, n, kind);
    }
    forall n, i: nat | LastEntry(entries, n, kind, i)
      ensures Key(n, kind) in services' && services'[Key(n, kind)] == Target(entries[i].ep)
    {
      LastEntrySnoc(front, e, n, kind, i);
      if n != e.name {
        assert entries[i] == front[i];
        if Key(n, kind) == key {
          KeyInjective(n, kind, e.name, kind);
        }
      }
    }
  }

  /** Both sections of a config are exact with respect to the core it started from. */
  ghost predicate ExactConfig(core: Config, entries: seq<Entry>, c: Config, domain: string, web: string)
    requires core.tcp.Some? && c.tcp.Some?
  {
    && ExactRouters(entries, Http, core.routers, c.routers, domain, web)
    && ExactServices(entries, Http, core.services, c.services)
    && ExactRouters(entries, Mqtt, core.tcp.value.routers, c.tcp.value.routers, domain, web)
    && ExactServices(entries, Mqtt, core.tcp.value.services, c.tcp.value.services)
  }

  lemma {:induction false} AddEntriesExact(core: Config, entries: seq<Entry>, domain: string, web: string)
    requires core.tcp.Some? && NoCoreKey(Http, core.routers, core.services)
    requires NoCoreKey(Mqtt, core.tcp.value.routers, core.tcp.value.services)
    ensures ExactConfig(core, entries, AddEntries(core, entries, domain, web), domain, web)
  {
    if entries != [] {
      var front, e := entries[..|entries| - 1], entries[|entries| - 1];
      var c := AddEntries(core, front, domain, web);
      AddEntriesExact(core, front, domain, web);
      assert entries == front + [e];
      if e.ep.kind.Http? {
        ExactRoutersSnoc(front, e, Http, core.routers, c.routers, domain, web);
        ExactServicesSnoc(front, e, Http, core.services, c.services);
        ExactOther(front, e, Mqtt, core.tcp.value.routers, core.tcp.value.services,
                   c.tcp.value.routers, c.tcp.value.services, domain, web);
      } else {
        ExactRoutersSnoc(front, e, Mqtt, core.tcp.value.routers, c.tcp.value.routers, domain, web);
        ExactServicesSnoc(front, e, Mqtt, core.tcp.value.services, c.tcp.value.services);
        ExactOther(front, e, Http, core.routers, core.services, c.routers, c.services, domain, web);
      }
    }
  }

  lemma EntriesAreExact(apps: seq<AppInfo>, domain: string, web: string)
    ensures ExactConfig(Core(domain, web), Flatten(apps), AddEntries(Core(domain, web), Flatten(apps), domain, web),
                        domain, web)
    ensures Compiled(apps, domain, web).routers == AddEntries(Core(domain, web), Flatten(apps), domain, web).routers
    ensures Compiled(apps, domain, web).services == AddEntries(Core(domain, web), Flatten(apps), domain, web).services
  {
    forall n ensures Key(n, Http) !in CoreRouters(domain, web) && Key(n, Http) !in CORE_SERVICES {
      KeyIsNotCore(n, Http);
    }
    AddEntriesExact(Core(domain, web), Flatten(apps), domain, web);
  }

  // ---- the main results ----

  /**
    The config of the apps is exact in both sections: nothing of the core is overwritten, and there is nothing else
    but app keys.
   */
  lemma CompiledIsExact(apps: seq<AppInfo>, domain: string, web: string)
    ensures var c, entries := Compiled(apps, domain, web), Flatten(apps);
      && ExactRouters(entries, Http, CoreRouters(domain, web), c.routers, domain, web)
      && ExactServices(entries, Http, CORE_SERVICES, c.services)
      && var tcp := if c.tcp.Some? then c.tcp.value else Tcp(map[], map[]);
         && ExactRouters(entries, Mqtt, map[], tcp.routers, domain, web)
         && ExactServices(entries, Mqtt, map[], tcp.services)
  {
    EntriesAreExact(apps, domain, web);
  }

  ghost predicate Closed(routers: map<string, Router>, services: map<string, string>) {
    forall k :: k in routers ==>
      && (routers[k].service in services || routers[k].service == INTERNAL_SERVICE)
      && forall m :: m in routers[k].middlewares ==> m in MIDDLEWARES
  }

  lemma CoreIsClosed(domain: string, web: string)
    ensures Closed(CoreRouters(domain, web), CORE_SERVICES)
  {
  }

  lemma ClosedWhenExact(entries: seq<Entry>, kind: Port, core: map<string, Router>, coreServices: map<string, string>,
                        routers: map<string, Router>, services: map<string, string>, domain: string, web: string)
    requires ExactRouters(entries, kind, core, routers, domain, web)
    requires ExactServices(entries, kind, coreServices, services)
    requires Closed(core, coreServices)
    ensures Closed(routers, services)
  {
    forall k | k in routers
      ensures routers[k].service in services || routers[k].service == INTERNAL_SERVICE
      ensures forall m :: m in routers[k].middlewares ==> m in MIDDLEWARES
    {
      if k !in core {
        var n :| HasEntry(entries, n, kind) && k == Key(n, kind);
        assert routers[k] == AppRouter(n, kind, domain, web);
      }
    }
  }

  /** Every router's service and middlewares are defined, in both sections. */
  lemma CompiledIsClosed(apps: seq<AppInfo>, domain: string, web: string)
    ensures var c := Compiled(apps, domain, web);
      && c.middlewares == MIDDLEWARES && Closed(c.routers, c.services)
      && (c.tcp.Some? ==> Closed(c.tcp.value.routers, c.tcp.value.services))
  {
    EntriesAreExact(apps, domain, web);
    CoreIsClosed(domain, web);
    var entries, core := Flatten(apps), Core(domain, web);
    var c := AddEntries(core, entries, domain, web);
    ClosedWhenExact(entries, Http, core.routers, core.services, c.routers, c.services, domain, web);
    ClosedWhenExact(entries, Mqtt, map[], map[], c.tcp.value.routers, c.tcp.value.services, domain, web);
  }

  /** The TCP section exists exactly when some app has an MQTT entrypoint. */
  lemma TcpExactlyWhen(apps: seq<AppInfo>, domain: string, web: string)
    ensures Compiled(apps, domain, web).tcp.Some? <==> exists n :: HasEntry(Flatten(apps), n, Mqtt)
  {
    var entries := Flatten(apps);
    EntriesAreExact(apps, domain, web);
    var tcp := AddEntries(Core(domain, web), entries, domain, web).tcp.value;
    if n :| HasEntry(entries, n, Mqtt) {
      assert Key(n, Mqtt) in tcp.routers;
    } else {
      assert forall k :: k !in tcp.routers;
      assert forall k :: k !in tcp.services;
      assert tcp.routers == map[] && tcp.services == map[];
    }
  }

  // ---- from the entries back to the apps ----

  ghost predicate DistinctNames(apps: seq<AppInfo>) {
    forall i, j :: 0 <= i < j < |apps| ==> apps[i].name != apps[j].name
  }

  /** The last entrypoint of the kind in the list. */
  ghost predicate LastOfKind(eps: seq<Entrypoint>, kind: Port, j: nat) {
    j < |eps| && eps[j].kind == kind && forall l :: j < l < |eps| ==> eps[l].kind != kind
  }

  lemma {:induction false} EntriesOfAre(name: string, eps: seq<Entrypoint>)
    ensures |EntriesOf(name, eps)| == |eps|
    ensures forall j :: 0 <= j < |eps| ==> EntriesOf(name, eps)[j] == Entry(name, eps[j])
  {
    if eps != [] {
      EntriesOfAre(name, eps[..|eps| - 1]);
    }
  }

  /** The last entry of an app's kind in the whole list is the last of that kind in the app's own list. */
  lemma {:induction false} LastEntryOfApp(apps: seq<AppInfo>, a: nat, kind: Port, j: nat) returns (i: nat)
    requires DistinctNames(apps) && a < |apps| && LastOfKind(apps[a].entrypoints, kind, j)
    ensures LastEntry(Flatten(apps), apps[a].name, kind, i)
    ensures Flatten(apps)[i] == Entry(apps[a].name, apps[a].entrypoints[j])
    decreases |apps|
  {
    var front, last := apps[..|apps| - 1], apps[|apps| - 1];
    EntriesOfAre(last.name, last.entrypoints);
    var head := Flatten(front);
    if a == |apps| - 1 {
      i := |head| + j;
      assert forall l :: |head| <= l < |Flatten(apps)| ==>
        Flatten(apps)[l] == Entry(last.name, last.entrypoints[l - |head|]);
    } else {
      i := LastEntryOfApp(front, a, kind, j);
      assert front[a] == apps[a];
      assert forall l :: |head| <= l < |Flatten(apps)| ==> Flatten(apps)[l].name == last.name;
      assert forall l :: 0 <= l < |head| ==> Flatten(apps)[l] == head[l];
    }
  }

  /** For apps of different names, the router and service of an app are those of its own last such entrypoint. */
  lemma AppIsRouted(apps: seq<AppInfo>, domain: string, web: string, a: nat, kind: Port, j: nat)
    requires DistinctNames(apps) && a < |apps| && LastOfKind(apps[a].entrypoints, kind, j)
    ensures var c, key := Compiled(apps, domain, web), Key(apps[a].name, kind);
      if kind.Http? then
        && key in c.routers && c.routers[key] == AppRouter(apps[a].name, kind, domain, web)
        && key in c.services && c.services[key] == Target(apps[a].entrypoints[j])
      else
        && c.tcp.Some? && key in c.tcp.value.routers
        && c.tcp.value.routers[key] == AppRouter(apps[a].name, kind, domain, web)
        && key in c.tcp.value.services && c.tcp.value.services[key] == Target(apps[a].entrypoints[j])
  {
    var i := LastEntryOfApp(apps, a, kind, j);
    var entries := Flatten(apps);
    EntriesAreExact(apps, domain, web);
    assert HasEntry(entries, apps[a].name, kind);
    TcpExactlyWhen(apps, domain, web);
  }

  // ---- who is let in, and where the requests go ----

  /** A compiled router is one of the core, or that of an app. */
  ghost predicate FromCoreOrApp(key: string, router: Router, domain: string, web: string) {
    || (key in CoreRouters(domain, web) && router == CoreRouters(domain, web)[key])
    || exists n :: key == Key(n, Http) && router == AppRouter(n, Http, domain, web)
  }

  lemma RouterComesFrom(apps: seq<AppInfo>, domain: string, web: string, key: string)
    requires key in Compiled(apps, domain, web).routers
    ensures FromCoreOrApp(key, Compiled(apps, domain, web).routers[key], domain, web)
  {
    CompiledIsExact(apps, domain, web);
    var core, routers := CoreRouters(domain, web), Compiled(apps, domain, web).routers;
    if key !in core {
      var n :| HasEntry(Flatten(apps), n, Http) && key == Key(n, Http);
      assert routers[key] == AppRouter(n, Http, domain, web);
    }
  }

  lemma CoreRouterStays(apps: seq<AppInfo>, domain: string, web: string, key: string)
    requires key in CoreRouters(domain, web)
    ensures var c := Compiled(apps, domain, web); key in c.routers && c.routers[key] == CoreRouters(domain, web)[key]
  {
    CompiledIsExact(apps, domain, web);
  }

  lemma CoreServiceStays(apps: seq<AppInfo>, domain: string, web: string, key: string)
    requires key in CORE_SERVICES
    ensures var c := Compiled(apps, domain, web); key in c.services && c.services[key] == CORE_SERVICES[key]
  {
    CompiledIsExact(apps, domain, web);
  }

  /** The API of the core keeps its paths and its own authentication, whatever apps there are. */
  lemma ApiIsKept(apps: seq<AppInfo>, domain: string, web: string)
    ensures var c := Compiled(apps, domain, web);
      && "shard_core_public" in c.routers && c.routers["shard_core_public"] ==
           Router("PathPrefix(`/core/public`)", web, "shard_core", ["strip", "auth-public"])
      && "shard_core_private" in c.routers && c.routers["shard_core_private"] ==
           Router("PathPrefix(`/core/protected`)", web, "shard_core", ["strip", "auth-private"])
      && "shard_core_management" in c.routers && c.routers["shard_core_management"] ==
           Router("PathPrefix(`/core/management`)", web, "shard_core", ["strip", "auth-management"])
  {
    CoreRouterStays(apps, domain, web, "shard_core_public");
    CoreRouterStays(apps, domain, web, "shard_core_private");
    CoreRouterStays(apps, domain, web, "shard_core_management");
  }

  /** So do the terminal's page and the dashboard of the proxy. */
  lemma PagesAreKept(apps: seq<AppInfo>, domain: string, web: string)
    ensures var c := Compiled(apps, domain, web);
      && "web-terminal" in c.routers && c.routers["web-terminal"] ==
           Router("PathPrefix(`/`)", web, "web-terminal", [])
      && "traefik" in c.routers && c.routers["traefik"] ==
           Router("HostRegexp(`traefik." + domain + "`)", web, "api@internal", ["auth-private"])
  {
    CoreRouterStays(apps, domain, web, "web-terminal");
    CoreRouterStays(apps, domain, web, "traefik");
  }

  lemma CoreIsReached(apps: seq<AppInfo>, domain: string, web: string)
    ensures var c := Compiled(apps, domain, web);
      && "shard_core" in c.services && c.services["shard_core"] == "http://shard_core:80/"
      && "web-terminal" in c.services && c.services["web-terminal"] == "http://web-terminal:80/"
  {
    CoreServiceStays(apps, domain, web, "shard_core");
    CoreServiceStays(apps, domain, web, "web-terminal");
  }

  /** A middleware that asks who is there. */
  predicate Authenticates(middleware: string) {
    middleware == "auth" || middleware == "auth-private" || middleware == "auth-management"
  }

  predicate Guarded(router: Router) {
    exists i :: 0 <= i < |router.middlewares| && Authenticates(router.middlewares[i])
  }

  lemma CoreIsGuarded(domain: string, web: string, key: string)
    requires key in CoreRouters(domain, web) && key != "shard_core_public" && key != "web-terminal"
    ensures Guarded(CoreRouters(domain, web)[key])
  {
    var middlewares := CoreRouters(domain, web)[key].middlewares;
    if key == "shard_core_private" {
      assert middlewares == ["strip", "auth-private"] && Authenticates(middlewares[1]);
    } else if key == "shard_core_management" {
      assert middlewares == ["strip", "auth-management"] && Authenticates(middlewares[1]);
    } else {
      assert middlewares == ["auth-private"] && Authenticates(middlewares[0]);
    }
  }

  lemma AppIsGuarded(n: string, domain: string, web: string)
    ensures Guarded(AppRouter(n, Http, domain, web))
  {
    assert Authenticates(AppRouter(n, Http, domain, web).middlewares[1]);
  }

  /** Nothing but the public API and the terminal's own page is served without authentication. */
  lemma EverythingElseIsGuarded(apps: seq<AppInfo>, domain: string, web: string, key: string)
    requires key in Compiled(apps, domain, web).routers && key != "shard_core_public" && key != "web-terminal"
    ensures Guarded(Compiled(apps, domain, web).routers[key])
  {
    RouterComesFrom(apps, domain, web, key);
    var router := Compiled(apps, domain, web).routers[key];
    if key in CoreRouters(domain, web) && router == CoreRouters(domain, web)[key] {
      CoreIsGuarded(domain, web, key);
    } else {
      var n :| key == Key(n, Http) && router == AppRouter(n, Http, domain, web);
      AppIsGuarded(n, domain, web);
    }
  }

  /**
    For apps of different names, requests for an app's own host go through "auth" to the container and port of its
    own last HTTP entrypoint.
   */
  lemma HttpReachesItsApp(apps: seq<AppInfo>, domain: string, disableSsl: bool, a: nat, j: nat)
    requires DistinctNames(apps) && a < |apps| && LastOfKind(apps[a].entrypoints, Http, j)
    ensures var c, name, ep := Compiled(apps, domain, WebEntry(disableSsl)), apps[a].name, apps[a].entrypoints[j];
      && name + "_http" in c.routers
      && var router := c.routers[name + "_http"];
         && router.rule == "Host(`" + name + "." + domain + "`)"
         && router.entryPoint == (if disableSsl then "http" else "https")
         && router.middlewares == ["app-error", "auth"]
         && router.service in c.services
         && c.services[router.service] == "http://" + ep.container + ":" + ep.port
  {
    AppIsRouted(apps, domain, WebEntry(disableSsl), a, Http, j);
    assert Key(apps[a].name, Http) == apps[a].name + "_http";
  }

  /** MQTT connections for an app's own host go to the container and port of its own last MQTT entrypoint. */
  lemma MqttReachesItsApp(apps: seq<AppInfo>, domain: string, web: string, a: nat, j: nat)
    requires DistinctNames(apps) && a < |apps| && LastOfKind(apps[a].entrypoints, Mqtt, j)
    ensures var c, name, ep := Compiled(apps, domain, web), apps[a].name, apps[a].entrypoints[j];
      && c.tcp.Some? && name + "_mqtt" in c.tcp.value.routers
      && var router := c.tcp.value.routers[name + "_mqtt"];
         && router.rule == "HostSNI(`" + name + "." + domain + "`)" && router.entryPoint == "mqtt"
         && router.service in c.tcp.value.services
         && c.tcp.value.services[router.service] == ep.container + ":" + ep.port
  {
    AppIsRouted(apps, domain, web, a, Mqtt, j);
    assert Key(apps[a].name, Mqtt) == apps[a].name + "_mqtt";
  }

  lemma SameMiddle(prefix: string, x: string, y: string, suffix: string)
    requires prefix + x + suffix == prefix + y + suffix
    ensures x == y
  {
    var a, b := prefix + x + suffix, prefix + y + suffix;
    assert |a| == |prefix| + |x| + |suffix| && |b| == |prefix| + |y| + |suffix|;
    assert a[|prefix|..|prefix| + |x|] == x && b[|prefix|..|prefix| + |y|] == y;
  }

  /** No two apps are asked for by the same rule. */
  lemma RulesAreDistinct(apps: seq<AppInfo>, domain: string, web: string, n1: string, n2: string)
    requires n1 != n2
    ensures var c := Compiled(apps, domain, web);
      && (n1 + "_http" in c.routers && n2 + "_http" in c.routers ==>
            c.routers[n1 + "_http"].rule != c.routers[n2 + "_http"].rule)
      && (c.tcp.Some? && n1 + "_mqtt" in c.tcp.value.routers && n2 + "_mqtt" in c.tcp.value.routers ==>
            c.tcp.value.routers[n1 + "_mqtt"].rule != c.tcp.value.routers[n2 + "_mqtt"].rule)
  {
    RuleOf(apps, domain, web, n1);
    RuleOf(apps, domain, web, n2);
    if "Host(`" + n1 + "." + domain + "`)" == "Host(`" + n2 + "." + domain + "`)" {
      SameHost("Host(`", n1, n2, domain);
    }
    if "HostSNI(`" + n1 + "." + domain + "`)" == "HostSNI(`" + n2 + "." + domain + "`)" {
      SameHost("HostSNI(`", n1, n2, domain);
    }
  }

  lemma SameHost(prefix: string, n1: string, n2: string, domain: string)
    requires prefix + n1 + "." + domain + "`)" == prefix + n2 + "." + domain + "`)"
    ensures n1 == n2
  {
    var suffix := "." + domain + "`)";
    assert prefix + n1 + "." + domain + "`)" == prefix + n1 + suffix;
    assert prefix + n2 + "." + domain + "`)" == prefix + n2 + suffix;
    SameMiddle(prefix, n1, n2, suffix);
  }

  lemma RuleOf(apps: seq<AppInfo>, domain: string, web: string, n: string)
    ensures var c := Compiled(apps, domain, web);
      && (n + "_http" in c.routers ==> c.routers[n + "_http"].rule == "Host(`" + n + "." + domain + "`)")
      && (c.tcp.Some? && n + "_mqtt" in c.tcp.value.routers ==>
            c.tcp.value.routers[n + "_mqtt"].rule == "HostSNI(`" + n + "." + domain + "`)")
  {
    assert Key(n, Http) == n + "_http" && Key(n, Mqtt) == n + "_mqtt";
    HttpRuleOf(apps, domain, web, n);
    MqttRuleOf(apps, domain, web, n);
  }

  lemma HttpRuleOf(apps: seq<AppInfo>, domain: string, web: string, n: string)
    ensures var c, key := Compiled(apps, domain, web), Key(n, Http);
      key in c.routers ==> c.routers[key].rule == "Host(`" + n + "." + domain + "`)"
  {
    var key := Key(n, Http);
    if key in Compiled(apps, domain, web).routers {
      RouterComesFrom(apps, domain, web, key);
      KeyIsNotCore(n, Http);
      var m :| key == Key(m, Http) && Compiled(apps, domain, web).routers[key] == AppRouter(m, Http, domain, web);
      KeyInjective(n, Http, m, Http);
    }
  }

  lemma TcpRouterComesFrom(apps: seq<AppInfo>, domain: string, web: string, key: string) returns (n: string)
    requires var c := Compiled(apps, domain, web); c.tcp.Some? && key in c.tcp.value.routers
    ensures key == Key(n, Mqtt) && Compiled(apps, domain, web).tcp.value.routers[key] == AppRouter(n, Mqtt, domain, web)
  {
    CompiledIsExact(apps, domain, web);
    n :| HasEntry(Flatten(apps), n, Mqtt) && key == Key(n, Mqtt);
  }

  lemma MqttRuleOf(apps: seq<AppInfo>, domain: string, web: string, n: string)
    ensures var c, key := Compiled(apps, domain, web), Key(n, Mqtt);
      c.tcp.Some? && key in c.tcp.value.routers ==>
        c.tcp.value.routers[key].rule == "HostSNI(`" + n + "." + domain + "`)"
  {
    var c, key := Compiled(apps, domain, web), Key(n, Mqtt);
    if c.tcp.Some? && key in c.tcp.value.routers {
      var m := TcpRouterComesFrom(apps, domain, web, key);
      KeyInjective(n, Mqtt, m, Mqtt);
    }
  }

  // ---- which apps are compiled ----

  /** Apps in these statuses get no router. */
  predicate Routable(status: Status) {
    !status.InstallationQueued? && !status.Error? && !status.UninstallationQueued? && !status.Uninstalling?
  }

  datatype AppRow = AppRow(name: string, status: Status, meta: Option<seq<Entrypoint>>)

  ghost predicate Compilable(row: AppRow) {
    Routable(row.status) && row.meta.Some?
  }

  /** The filter of write_traefik_dyn_config: routable rows whose metadata can be loaded, in order. */
  method CollectAppInfos(rows: seq<AppRow>) returns (infos: seq<AppInfo>)
    requires forall i, j :: 0 <= i < j < |rows| ==> rows[i].name != rows[j].name
    ensures DistinctNames(infos)
    ensures forall i, a :: 0 <= i < |rows| && a in infos && a.name == rows[i].name ==>
      rows[i].status !in {InstallationQueued, Error, UninstallationQueued, Uninstalling}
    ensures forall a :: a in infos <==>
      exists i :: 0 <= i < |rows| && Compilable(rows[i]) && a == AppInfo(rows[i].name, rows[i].meta.value)
  {
    infos := [];
    for i := 0 to |rows|
      invariant DistinctNames(infos)
      invariant forall a :: a in infos <==>
        exists k :: 0 <= k < i && Compilable(rows[k]) && a == AppInfo(rows[k].name, rows[k].meta.value)
    {
      if rows[i].status !in {InstallationQueued, Error, UninstallationQueued, Uninstalling} {
        match rows[i].meta
        case None =>
        case Some(eps) =>
          ghost var before := infos;
          assert forall k :: 0 <= k < |before| ==> before[k] in before;
          infos := infos + [AppInfo(rows[i].name, eps)];
      }
    }
  }
}
