/** How the operator keeps MaxScale servers, Pod indices and the recorded primary in step. */
module PrimaryIdentity {
  import opened Prelude
  import opened Names

  /** A MariaDB as far as its Pods' names and addresses go. */
  datatype MariaDB = MariaDB(name: string, namespace: string, service: string, cluster: string, replicas: nat, port: nat)

  datatype Server = Server(name: string, address: string, port: nat, maintenance: bool)

  function Address(mdb: MariaDB, i: nat): string {
    PodFQDN(mdb.name, i, mdb.service, mdb.namespace, mdb.cluster)
  }

  /** Server i stands for Pod i. */
  ghost predicate ServesPods(mdb: MariaDB, servers: seq<Server>) {
    forall i :: 0 <= i < |servers| ==> servers[i].name == PodName(mdb.name, i) && servers[i].address == Address(mdb, i)
  }

  /** setMariadbDefaults: one server per replica, existing ones kept by position. */
  method SetMariadbDefaults(mdb: MariaDB, existing: seq<Server>) returns (servers: seq<Server>)
    ensures |servers| == mdb.replicas
    ensures forall i :: 0 <= i < |servers| && i < |existing| ==> servers[i] == existing[i]
    ensures forall i :: |existing| <= i < |servers| ==> servers[i] == Server(PodName(mdb.name, i), Address(mdb, i), mdb.port, false)
    ensures forall i :: |existing| <= i < |servers| ==>
              && servers[i].name == mdb.name + "-" + Decimal(i)
              && servers[i].address == mdb.name + "-" + Decimal(i) + "." + (mdb.service + "." + mdb.namespace + ".svc." + mdb.cluster)
              && servers[i].port == mdb.port
    ensures ServesPods(mdb, existing) ==> ServesPods(mdb, servers)
  {
    servers := seq(mdb.replicas, _ => Server("", "", 0, false));
    for i := 0 to mdb.replicas
      invariant |servers| == mdb.replicas
      invariant forall j :: 0 <= j < i && j < |existing| ==> servers[j] == existing[j]
      invariant forall j :: |existing| <= j < i ==> servers[j] == Server(PodName(mdb.name, j), Address(mdb, j), mdb.port, false)
    {
      var server;
      if i < |existing| {
        server := existing[i];
      } else {
        server := Server(PodName(mdb.name, i), Address(mdb, i), mdb.port, false);
      }
      servers := servers[i := server];
    }
  }

  /** The address of a server leads back to the Pod it stands for, its MariaDB, the Service and the namespace. */
  lemma AddressLeadsToPod(mdb: MariaDB, servers: seq<Server>, i: nat)
    requires ServesPods(mdb, servers) && i < |servers| && i <= MAX_INT
    requires '.' !in mdb.name && '.' !in mdb.service && '.' !in mdb.namespace
    ensures ParsePodFQDN(servers[i].address) == Some(PodAddress(i, mdb.name, mdb.service, mdb.namespace))
    ensures PodIndex(servers[i].name) == Some(i)
  {
    PodFQDNRoundTrip(mdb.name, i, mdb.service, mdb.namespace, mdb.cluster);
    PodIndexRoundTrip(mdb.name, i);
  }

  /** The user scales the MariaDB and puts servers into maintenance; every change is followed by the defaults. */
  method ScaleRepeatedly(mdb: MariaDB, replicas: seq<nat>, maintenance: seq<set<nat>>) returns (servers: seq<Server>)
    requires |maintenance| == |replicas|
    ensures ServesPods(mdb, servers)
    ensures |servers| == if replicas == [] then 0 else replicas[|replicas| - 1]
  {
    servers := [];
    for k := 0 to |replicas|
      invariant ServesPods(mdb, servers)
      invariant |servers| == if k == 0 then 0 else replicas[k - 1]
    {
      var edited := seq(|servers|, i requires 0 <= i < |servers| => servers[i].(maintenance := i in maintenance[k]));
      servers := SetMariadbDefaults(mdb.(replicas := replicas[k]), edited);
    }
  }

  /** podIndexForServer: the server by name, then the Pod by address. */
  method PodIndexForServer(serverName: string, servers: seq<Server>, mdb: MariaDB) returns (index: Option<nat>)
    ensures ServesPods(mdb, servers) ==>
              forall i: nat :: serverName == PodName(mdb.name, i) ==>
                index == if i < |servers| && i < mdb.replicas then Some(i) else None
    ensures index.Some? ==> index.value < mdb.replicas
  {
    var k := 0;
    while k < |servers| && servers[k].name != serverName
      invariant 0 <= k <= |servers|
      invariant forall j :: 0 <= j < k ==> servers[j].name != serverName
    {
      k := k + 1;
    }
    if k == |servers| {
      return None;
    }
    ghost var all := ServesPods(mdb, servers);
    if all {
      forall i: nat | serverName == PodName(mdb.name, i)
        ensures i == k
      {
        PodNameInjective(mdb.name, i, k);
      }
    }
    for i := 0 to mdb.replicas
      invariant all ==> k >= i
    {
      if servers[k].address == Address(mdb, i) {
        if all {
          PodFQDNInjective(mdb.name, k, i, mdb.service, mdb.namespace, mdb.cluster);
        }
        return Some(i);
      }
    }
    return None;
  }

  /** From an empty server list, after any number of scale changes: the name of server i leads back to Pod i. */
  method PrimaryRoundTrip(mdb: MariaDB, replicas: seq<nat>, maintenance: seq<set<nat>>, i: nat) returns (index: Option<nat>)
    requires |maintenance| == |replicas| > 0 && mdb.replicas == replicas[|replicas| - 1]
    ensures index == if i < mdb.replicas then Some(i) else None
  {
    var servers := ScaleRepeatedly(mdb, replicas, maintenance);
    index := PodIndexForServer(PodName(mdb.name, i), servers, mdb);
  }

  /** The two status fields that name the primary, and everything that writes them. */
  class PrimaryStatus {
    const name: string
    var index: Option<nat>
    var primary: Option<string>

    constructor (name: string)
      ensures Valid() && this.name == name && index == None
    {
      this.name := name;
      index, primary := None, None;
    }

    /** The recorded name is the name of the recorded index. */
    ghost predicate Valid()
      reads this
    {
      primary == if index.Some? then Some(PodName(name, index.value)) else None
    }

    method DefaultPrimary(galera: bool, galeraIndex: Option<nat>, replication: bool, replicationIndex: Option<nat>)
      requires Valid()
      modifies this
      ensures Valid()
      ensures old(index).Some? ==> index == old(index)
      ensures old(index).None? ==>
                index == Some(if replication && replicationIndex.Some? then replicationIndex.value
                              else if !replication && galera && galeraIndex.Some? then galeraIndex.value
                              else 0)
    {
      if index.Some? || primary.Some? {
        return;
      }
      var podIndex := 0;
      if galera {
        podIndex := if galeraIndex.Some? then galeraIndex.value else 0;
      }
      if replication {
        podIndex := if replicationIndex.Some? then replicationIndex.value else 0;
      }
      index := Some(podIndex);
      primary := Some(PodName(name, podIndex));
    }

    method SetMaxScalePrimary(maxScale: bool, podIndex: Option<nat>)
      requires Valid()
      modifies this
      ensures Valid() && index == if maxScale && podIndex.Some? then podIndex else old(index)
    {
      if !maxScale || podIndex.None? {
        return;
      }
      index := podIndex;
      primary := Some(PodName(name, podIndex.value));
    }

    /** UpdateCurrentPrimary, at the end of a switchover. */
    method UpdateCurrentPrimary(podIndex: nat)
      modifies this
      ensures Valid() && index == Some(podIndex)
    {
      index := Some(podIndex);
      primary := Some(PodName(name, podIndex));
    }

    /** Reading the name back with PodIndex gives the index: the two fields never name different Pods. */
    method IndexOfPrimary() returns (i: Option<int>)
      requires Valid() && index.Some? && index.value <= MAX_INT
      ensures i == Some(index.value)
    {
      PodIndexRoundTrip(name, index.value);
      i := PodIndex(primary.value);
    }
  }
}
