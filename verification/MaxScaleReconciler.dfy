/** The MaxScale controller's API phases: servers, monitor, services and listeners, each behind a hash of its part of
    the spec that stands for "nothing changed". */
module MaxScaleReconciler {
  import opened Prelude
  import opened MaxScaleSync

  datatype ServerSpec = ServerSpec(name: string, attrs: string, maintenance: bool)
  datatype ListenerSpec = ListenerSpec(name: string, attrs: string)
  datatype ServiceSpec = ServiceSpec(name: string, attrs: string, listener: ListenerSpec)
  datatype MonitorSpec = MonitorSpec(name: string, attrs: string)
  datatype Spec = Spec(servers: seq<ServerSpec>, monitor: MonitorSpec, services: seq<ServiceSpec>)

  /** A monitor or a service, with the servers it is linked to. */
  datatype Linked = Linked(attrs: string, servers: set<string>)
  datatype Listener = Listener(attrs: string, service: string)

  datatype Api = Api(
    servers: map<string, Server>,
    monitors: map<string, Linked>,
    services: map<string, Linked>,
    listeners: map<string, Listener>
  )

  datatype Status = Status(
    serversSpec: Option<Digest<seq<ServerSpec>>>,
    monitorSpec: Option<Digest<MonitorSpec>>,
    servicesSpec: Option<Digest<seq<ServiceSpec>>>
  )

  // ---------------------------------------------------------------------------------------------
  // What the spec asks for
  // ---------------------------------------------------------------------------------------------

  function ServerName(s: ServerSpec): string { s.name }
  function ServiceName(s: ServiceSpec): string { s.name }
  function ListenerName(l: ListenerSpec): string { l.name }

  function ServerIndex(servers: seq<ServerSpec>): map<string, ServerSpec> {
    IndexOf(servers, ServerName)
  }

  function ServiceIndex(services: seq<ServiceSpec>): map<string, ServiceSpec> {
    IndexOf(services, ServiceName)
  }

  function Listeners(services: seq<ServiceSpec>): seq<ListenerSpec> {
    seq(|services|, i requires 0 <= i < |services| => services[i].listener)
  }

  function ListenerIndex(services: seq<ServiceSpec>): map<string, ListenerSpec> {
    IndexOf(Listeners(services), ListenerName)
  }

  /** ServiceForListener: the first service that declares the listener. */
  function ServiceForListener(services: seq<ServiceSpec>, listener: string): Option<string> {
    if services == [] then None
    else if services[0].listener.name == listener then Some(services[0].name)
    else ServiceForListener(services[1..], listener)
  }

  function DesiredServers(servers: seq<ServerSpec>): map<string, Server> {
    var index := ServerIndex(servers);
    map k | k in index :: Server(index[k].attrs, index[k].maintenance)
  }

  function DesiredServices(services: seq<ServiceSpec>, links: set<string>): map<string, Linked> {
    var index := ServiceIndex(services);
    map k | k in index :: Linked(index[k].attrs, links)
  }

  function DesiredListeners(services: seq<ServiceSpec>): map<string, Listener> {
    var index := ListenerIndex(services);
    map k | k in index && ServiceForListener(services, k).Some? :: Listener(index[k].attrs, ServiceForListener(services, k).value)
  }

  /** With unique names, every server of the spec is wanted with its own attributes and maintenance flag. */
  lemma ServerHasItsOwnEntry(servers: seq<ServerSpec>, i: nat)
    requires UniqueKeys(servers, ServerName) && i < |servers|
    ensures servers[i].name in DesiredServers(servers)
    ensures DesiredServers(servers)[servers[i].name] == Server(servers[i].attrs, servers[i].maintenance)
  {
    IndexOfUnique(servers, ServerName, i);
  }

  /** And every service with its own attributes. */
  lemma ServiceHasItsOwnEntry(services: seq<ServiceSpec>, links: set<string>, i: nat)
    requires UniqueKeys(services, ServiceName) && i < |services|
    ensures services[i].name in DesiredServices(services, links)
    ensures DesiredServices(services, links)[services[i].name] == Linked(services[i].attrs, links)
  {
    IndexOfUnique(services, ServiceName, i);
  }

  lemma {:induction false} ServiceForListenerFindsFirst(services: seq<ServiceSpec>, listener: string)
    ensures ServiceForListener(services, listener).Some? <==> exists i :: 0 <= i < |services| && services[i].listener.name == listener
    ensures ServiceForListener(services, listener).Some? ==>
              exists i :: && 0 <= i < |services| && services[i].listener.name == listener
                          && ServiceForListener(services, listener) == Some(services[i].name)
                          && forall j :: 0 <= j < i ==> services[j].listener.name != listener
  {
    if services != [] {
      if services[0].listener.name != listener {
        ServiceForListenerFindsFirst(services[1..], listener);
        if ServiceForListener(services, listener).Some? {
          var i :| && 0 <= i < |services[1..]| && services[1..][i].listener.name == listener
                   && ServiceForListener(services[1..], listener) == Some(services[1..][i].name)
                   && forall j :: 0 <= j < i ==> services[1..][j].listener.name != listener;
          assert services[i + 1] == services[1..][i];
          forall j | 0 <= j < i + 1
            ensures services[j].listener.name != listener
          {
            if j > 0 {
              assert services[j] == services[1..][j - 1];
            }
          }
        } else {
          forall i | 0 <= i < |services|
            ensures services[i].listener.name != listener
          {
            if i > 0 {
              assert services[i] == services[1..][i - 1];
            }
          }
        }
      }
    }
  }

  lemma ListenerIndexed(services: seq<ServiceSpec>, key: string) returns (last: nat)
    ensures key in ListenerIndex(services) <==> ServiceForListener(services, key).Some?
    ensures key in ListenerIndex(services) ==>
              && last < |services| && services[last].listener.name == key
              && ListenerIndex(services)[key] == services[last].listener
              && forall j :: last < j < |services| ==> services[j].listener.name != key
  {
    var listeners := Listeners(services);
    IndexHoldsLast(listeners, ListenerName, key);
    ServiceForListenerFindsFirst(services, key);
    last := 0;
    if key in ListenerIndex(services) {
      last :| && 0 <= last < |listeners| && IndexOf(listeners, ListenerName)[key] == listeners[last]
              && ListenerName(listeners[last]) == key
              && forall j :: last < j < |listeners| ==> ListenerName(listeners[j]) != key;
      forall j | last < j < |services|
        ensures services[j].listener.name != key
      {
        assert ListenerName(listeners[j]) != key;
      }
    } else {
      forall i | 0 <= i < |services|
        ensures services[i].listener.name != key
      {
        assert ListenerName(listeners[i]) != key;
      }
    }
  }

  /** Each declared listener gets the attributes of the last service that declares it, under the name of the first
      one; none is dropped. */
  lemma ListenerOfDeclarations(services: seq<ServiceSpec>, key: string) returns (first: nat, last: nat)
    ensures key in DesiredListeners(services) <==> exists i :: 0 <= i < |services| && services[i].listener.name == key
    ensures key in DesiredListeners(services) ==>
              && first <= last < |services|
              && services[first].listener.name == key && services[last].listener.name == key
              && (forall j :: 0 <= j < |services| && services[j].listener.name == key ==> first <= j <= last)
              && DesiredListeners(services)[key] == Listener(services[last].listener.attrs, services[first].name)
  {
    last := ListenerIndexed(services, key);
    ServiceForListenerFindsFirst(services, key);
    first := 0;
    if key in DesiredListeners(services) {
      first :| && 0 <= first < |services| && services[first].listener.name == key
               && ServiceForListener(services, key) == Some(services[first].name)
               && forall j :: 0 <= j < first ==> services[j].listener.name != key;
    }
  }

  /** With unique listener names, each service gets the listener it declares. */
  lemma ListenerBelongsToItsService(services: seq<ServiceSpec>, i: nat)
    requires i < |services|
    requires forall j, k :: 0 <= j < k < |services| ==> services[j].listener.name != services[k].listener.name
    ensures services[i].listener.name in DesiredListeners(services)
    ensures DesiredListeners(services)[services[i].listener.name] == Listener(services[i].listener.attrs, services[i].name)
  {
    var first, last := ListenerOfDeclarations(services, services[i].listener.name);
    assert first == i && last == i;
  }

  /** Exactly the spec's servers, services and listeners, and its monitor linked to exactly those servers. */
  ghost predicate Converged(spec: Spec, api: Api) {
    var ids := ServerIndex(spec.servers).Keys;
    && api.servers == DesiredServers(spec.servers)
    && spec.monitor.name in api.monitors && api.monitors[spec.monitor.name] == Linked(spec.monitor.attrs, ids)
    && api.services == DesiredServices(spec.services, ids)
    && api.listeners == DesiredListeners(spec.services)
  }

  // ---------------------------------------------------------------------------------------------
  // The controller
  // ---------------------------------------------------------------------------------------------

  class Controller {
    var spec: Spec
    var api: Api
    var status: Status
    var podClient: bool   // a Pod that answers has been found
    var calls: nat        // how many calls succeed before one fails

    constructor (spec: Spec, api: Api, status: Status, podClient: bool, calls: nat)
      ensures this.spec == spec && this.api == api && this.status == status
      ensures this.podClient == podClient && this.calls == calls
    {
      this.spec, this.api, this.status, this.podClient, this.calls := spec, api, status, podClient, calls;
    }

    /** A call that only reads. */
    method Call() returns (ok: bool)
      modifies this`calls
      ensures ok <==> old(calls) > 0
      ensures calls == if ok then old(calls) - 1 else 0
    {
      ok := calls > 0;
      if ok {
        calls := calls - 1;
      }
    }

    method ReconcileServers() returns (outcome: Outcome)
      modifies this`api, this`calls
      ensures api == old(api).(servers := api.servers)
      ensures outcome == RequeueAfter(1) <==> !podClient
      ensures outcome == Proceed ==> api.servers == DesiredServers(spec.servers)
      ensures outcome == Proceed || outcome == Failed || outcome == RequeueAfter(1)
      ensures ServersBetween(old(api.servers), api.servers, DesiredServers(spec.servers))
      ensures !podClient ==> api == old(api)
    {
      if !podClient {
        return RequeueAfter(1);
      }
      var listed := Call();
      if !listed {
        return Failed;
      }
      var index := NewIndex(spec.servers, ServerName);
      var desired := map k | k in index :: Server(index[k].attrs, index[k].maintenance);
      var ok, after, left := ApplyServers(api.servers, desired, calls);
      api := api.(servers := after);
      calls := left;
      outcome := if ok then Proceed else Failed;
    }

    /** serverRelationships: the listed servers that are in the spec. */
    method ServerRelationships() returns (ok: bool, links: set<string>)
      modifies this`calls
      ensures ok ==> links == api.servers.Keys * ServerIndex(spec.servers).Keys
      ensures api.servers.Keys == ServerIndex(spec.servers).Keys && ok ==> links == ServerIndex(spec.servers).Keys
    {
      ok := Call();
      var index := NewIndex(spec.servers, ServerName);
      links := api.servers.Keys * index.Keys;
    }

    method ReconcileMonitor() returns (outcome: Outcome)
      modifies this`api, this`calls
      ensures outcome == RequeueAfter(1) <==> !podClient
      ensures outcome == Proceed || outcome == Failed || outcome == RequeueAfter(1)
      ensures outcome == Proceed ==>
                api == old(api).(monitors := old(api.monitors)[spec.monitor.name :=
                         Linked(spec.monitor.attrs, old(api.servers.Keys) * ServerIndex(spec.servers).Keys)])
      ensures outcome != Proceed ==> api == old(api)
    {
      if !podClient {
        return RequeueAfter(1);
      }
      var got := Call();
      if !got {
        return Failed;
      }
      var ok, links := ServerRelationships();
      if !ok {
        return Failed;
      }
      var written := Call();
      if !written {
        return Failed;
      }
      api := api.(monitors := api.monitors[spec.monitor.name := Linked(spec.monitor.attrs, links)]);
      outcome := Proceed;
    }

    method ReconcileServices() returns (outcome: Outcome)
      modifies this`api, this`calls
      ensures api == old(api).(services := api.services)
      ensures outcome == RequeueAfter(1) <==> !podClient
      ensures outcome == Proceed || outcome == Failed || outcome == RequeueAfter(1)
      ensures outcome == Proceed ==>
                api.services == DesiredServices(spec.services, api.servers.Keys * ServerIndex(spec.servers).Keys)
      ensures Between(old(api.services), api.services,
                      DesiredServices(spec.services, api.servers.Keys * ServerIndex(spec.servers).Keys))
    {
      if !podClient {
        return RequeueAfter(1);
      }
      var listed := Call();
      if !listed {
        return Failed;
      }
      var index := NewIndex(spec.services, ServiceName);
      var related, links := ServerRelationships();
      if !related {
        return Failed;
      }
      var desired := map k | k in index :: Linked(index[k].attrs, links);
      var ok, after, left := ApplyDiff(api.services, desired, calls);
      api := api.(services := after);
      calls := left;
      outcome := if ok then Proceed else Failed;
    }

    method ReconcileListeners() returns (outcome: Outcome)
      modifies this`api, this`calls
      ensures api == old(api).(listeners := api.listeners)
      ensures outcome == RequeueAfter(1) <==> !podClient
      ensures outcome == Proceed || outcome == Failed || outcome == RequeueAfter(1)
      ensures outcome == Proceed ==> api.listeners == DesiredListeners(spec.services)
      ensures Between(old(api.listeners), api.listeners, DesiredListeners(spec.services))
    {
      if !podClient {
        return RequeueAfter(1);
      }
      var listed := Call();
      if !listed {
        return Failed;
      }
      var index := NewIndex(Listeners(spec.services), ListenerName);
      var desired := map k | k in index && ServiceForListener(spec.services, k).Some? ::
                       Listener(index[k].attrs, ServiceForListener(spec.services, k).value);
      var ok, after, left := ApplyDiff(api.listeners, desired, calls);
      api := api.(listeners := after);
      calls := left;
      outcome := if ok then Proceed else Failed;
    }

    /** reconcileChangedServers: the hash is stored only after the servers are as the spec wants them. */
    method ReconcileChangedServers() returns (outcome: Outcome)
      modifies this`api, this`calls, this`status
      ensures status == old(status).(serversSpec := status.serversSpec) && api == old(api).(servers := api.servers)
      ensures outcome == Proceed ==> status.serversSpec == Some(Digest(spec.servers))
      ensures outcome != Proceed ==> status == old(status)
      ensures old(status.serversSpec) == Some(Digest(spec.servers)) ==> outcome == Proceed && api == old(api)
      ensures old(status.serversSpec) != Some(Digest(spec.servers)) && outcome == Proceed ==>
                api.servers == DesiredServers(spec.servers)
      ensures ServersBetween(old(api.servers), api.servers, DesiredServers(spec.servers))
    {
      var serversHash := Digest(spec.servers);
      if status.serversSpec == Some(serversHash) {
        return Proceed;
      }
      outcome := ReconcileServers();
      if outcome != Proceed {
        return;
      }
      var patched := Call();
      if !patched {
        return Failed;
      }
      status := status.(serversSpec := Some(serversHash));
    }

    method ReconcileChangedMonitor() returns (outcome: Outcome)
      modifies this`api, this`calls, this`status
      ensures status == old(status).(monitorSpec := status.monitorSpec) && api == old(api).(monitors := api.monitors)
      ensures outcome == Proceed ==> status.monitorSpec == Some(Digest(spec.monitor))
      ensures old(status.monitorSpec) == Some(Digest(spec.monitor)) ==> outcome == Proceed && api == old(api)
      ensures old(status.monitorSpec) != Some(Digest(spec.monitor)) && outcome == Proceed ==>
                api.monitors == old(api.monitors)[spec.monitor.name :=
                                  Linked(spec.monitor.attrs, api.servers.Keys * ServerIndex(spec.servers).Keys)]
    {
      var monitorHash := Digest(spec.monitor);
      if status.monitorSpec == Some(monitorHash) {
        return Proceed;
      }
      outcome := ReconcileMonitor();
      if outcome != Proceed {
        return;
      }
      var patched := Call();
      if !patched {
        return Failed;
      }
      status := status.(monitorSpec := Some(monitorHash));
    }

    method ReconcileChangedServicesAndListeners() returns (outcome: Outcome)
      modifies this`api, this`calls, this`status
      ensures status == old(status).(servicesSpec := status.servicesSpec)
      ensures api == old(api).(services := api.services, listeners := api.listeners)
      ensures outcome == Proceed ==> status.servicesSpec == Some(Digest(spec.services))
      ensures old(status.servicesSpec) == Some(Digest(spec.services)) ==> outcome == Proceed && api == old(api)
      ensures old(status.servicesSpec) != Some(Digest(spec.services)) && outcome == Proceed ==>
                && api.services == DesiredServices(spec.services, api.servers.Keys * ServerIndex(spec.servers).Keys)
                && api.listeners == DesiredListeners(spec.services)
    {
      var servicesHash := Digest(spec.services);
      if status.servicesSpec == Some(servicesHash) {
        return Proceed;
      }
      outcome := ReconcileServices();
      if outcome != Proceed {
        return;
      }
      outcome := ReconcileListeners();
      if outcome != Proceed {
        return;
      }
      var patched := Call();
      if !patched {
        return Failed;
      }
      status := status.(servicesSpec := Some(servicesHash));
    }

    /** The three phases in order. A pass that gets through leaves each part of the API as the spec wants it if that
        part of the spec has changed, and alone if not; with all three changed the API has converged. */
    method Reconcile() returns (outcome: Outcome)
      modifies this`api, this`calls, this`status
      ensures AllChanged(old(status), spec) && outcome == Proceed ==> Converged(spec, api) && NoneChanged(status, spec)
      ensures NoneChanged(old(status), spec) ==> outcome == Proceed && api == old(api) && status == old(status)
      ensures outcome == Proceed ==>
                var links := api.servers.Keys * ServerIndex(spec.servers).Keys;
                && NoneChanged(status, spec)
                && api.servers == (if old(status.serversSpec) == Some(Digest(spec.servers)) then old(api.servers)
                                   else DesiredServers(spec.servers))
                && api.monitors == (if old(status.monitorSpec) == Some(Digest(spec.monitor)) then old(api.monitors)
                                    else old(api.monitors)[spec.monitor.name := Linked(spec.monitor.attrs, links)])
                && (if old(status.servicesSpec) == Some(Digest(spec.services))
                    then api.services == old(api.services) && api.listeners == old(api.listeners)
                    else && api.services == DesiredServices(spec.services, links)
                         && api.listeners == DesiredListeners(spec.services))
    {
      ghost var was := status;
      outcome := ReconcileChangedServers();
      if outcome != Proceed {
        return;
      }
      ghost var ids := ServerIndex(spec.servers).Keys;
      assert DesiredServers(spec.servers).Keys == ids;
      assert AllChanged(was, spec) ==> api.servers.Keys * ids == ids;
      outcome := ReconcileChangedMonitor();
      if outcome != Proceed {
        return;
      }
      outcome := ReconcileChangedServicesAndListeners();
    }

    /** The same without the hashes: success converges from any contents of the API. */
    method ReconcileUngated() returns (outcome: Outcome)
      modifies this`api, this`calls
      ensures outcome == Proceed ==> Converged(spec, api)
      ensures outcome == Proceed ==>
                api.monitors == old(api.monitors)[spec.monitor.name := Linked(spec.monitor.attrs, ServerIndex(spec.servers).Keys)]
    {
      outcome := ReconcileServers();
      if outcome != Proceed {
        return;
      }
      ghost var ids := ServerIndex(spec.servers).Keys;
      assert DesiredServers(spec.servers).Keys == ids;
      assert api.servers.Keys * ids == ids;
      outcome := ReconcileMonitor();
      if outcome != Proceed {
        return;
      }
      outcome := ReconcileServices();
      if outcome != Proceed {
        return;
      }
      outcome := ReconcileListeners();
    }

    /** Repeating it changes nothing. */
    method ReconcileTwice() returns (outcome: Outcome, once: Api)
      modifies this`api, this`calls
      ensures outcome == Proceed ==> Converged(spec, once) && api == once
    {
      outcome := ReconcileUngated();
      once := api;
      if outcome == Proceed {
        outcome := ReconcileUngated();
        assert outcome == Proceed ==> api.monitors == once.monitors;
      }
    }

    /** reconcileInitInPod: servers and monitor, if a server of the spec or the monitor is missing. No hash is
        involved. */
    method ReconcileInitInPod() returns (outcome: Outcome)
      modifies this`api, this`calls
      ensures ServerIndex(spec.servers).Keys <= old(api.servers.Keys) && spec.monitor.name in old(api.monitors) ==> api == old(api)
      ensures outcome == Proceed && !(ServerIndex(spec.servers).Keys <= old(api.servers.Keys) && spec.monitor.name in old(api.monitors)) ==>
                && api.servers == DesiredServers(spec.servers)
                && api.monitors == old(api.monitors)[spec.monitor.name := Linked(spec.monitor.attrs, ServerIndex(spec.servers).Keys)]
      ensures ServersBetween(old(api.servers), api.servers, DesiredServers(spec.servers))
    {
      var servers := Call();
      if !servers {
        return Failed;
      }
      if ServerIndex(spec.servers).Keys <= api.servers.Keys {
        var monitors := Call();
        if !monitors {
          return Failed;
        }
        if spec.monitor.name in api.monitors {
          return Proceed;
        }
      }
      outcome := ReconcileServers();
      if outcome != Proceed {
        return;
      }
      ghost var ids := ServerIndex(spec.servers).Keys;
      assert DesiredServers(spec.servers).Keys == ids;
      assert api.servers.Keys * ids == ids;
      outcome := ReconcileMonitor();
    }
  }

  ghost predicate AllChanged(status: Status, spec: Spec) {
    && status.serversSpec != Some(Digest(spec.servers))
    && status.monitorSpec != Some(Digest(spec.monitor))
    && status.servicesSpec != Some(Digest(spec.services))
  }

  ghost predicate NoneChanged(status: Status, spec: Spec) {
    status == Status(Some(Digest(spec.servers)), Some(Digest(spec.monitor)), Some(Digest(spec.services)))
  }
}
