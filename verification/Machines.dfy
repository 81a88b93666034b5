/**
 The machine object and its provider status, and what the actuator writes into them. A nil Go map or
 pointer is None. Parsing an IP address is a parameter: a partial function to its normal form.
 */
module Machines {
  import opened Wrappers
  import opened Tags
  import opened Ecs
  import opened Conditions

  const CLUSTER_ID_LABEL := "machine.openshift.io/cluster-api-cluster"
  const UPSTREAM_CLUSTER_ID_LABEL := "sigs.k8s.io/cluster-api-cluster"
  const REGION_LABEL := "machine.openshift.io/region"
  const ZONE_LABEL := "machine.openshift.io/zone"
  const INSTANCE_TYPE_LABEL := "machine.openshift.io/instance-type"
  const INSTANCE_STATE_ANNOTATION := "machine.openshift.io/instance-state"

  const REQUEUE_AFTER := 20
  const REQUEUE_AFTER_FATAL := 180

  type StringMap = map<string, string>
  type ParseIP = string -> Option<string>

  datatype AddressKind = InternalIP | ExternalIP | InternalDNS
  datatype NodeAddress = NodeAddress(kind: AddressKind, address: string)

  datatype Machine = Machine(
    name: string, labels: Option<StringMap>, specLabels: Option<StringMap>, annotations: Option<StringMap>,
    providerID: Option<string>, lastUpdated: Option<int>, addresses: seq<NodeAddress>
  )

  datatype ProviderStatus = ProviderStatus(
    instanceID: Option<string>, instanceState: Option<string>, conditions: seq<Condition>
  )

  /** Everything about one machine that the actuator reads and writes. */
  datatype Object = Object(machine: Machine, status: ProviderStatus)

  /** Reading a nil map finds nothing. */
  function Read(m: Option<StringMap>, key: string): Option<string> {
    if m.Some? && key in m.value then Some(m.value[key]) else None
  }

  function OrEmpty(m: Option<StringMap>): StringMap {
    if m.Some? then m.value else map[]
  }

  function ClusterID(m: Machine): Option<string> {
    if Read(m.labels, CLUSTER_ID_LABEL).Some? then Read(m.labels, CLUSTER_ID_LABEL)
    else Read(m.labels, UPSTREAM_CLUSTER_ID_LABEL)
  }

  /** validateMachine: the cluster label is there and not empty. */
  predicate ValidMachine(m: Machine) {
    Read(m.labels, CLUSTER_ID_LABEL).Some? && Read(m.labels, CLUSTER_ID_LABEL).value != ""
  }

  /** The machine records an instance ID. */
  predicate Recorded(s: ProviderStatus) {
    s.instanceID.Some? && s.instanceID.value != ""
  }

  predicate HasProviderID(m: Machine) {
    m.providerID.Some? && m.providerID.value != ""
  }

  /** No instance was found, but the machine had one until a moment ago. */
  predicate MaybeStale(m: Machine, now: int) {
    HasProviderID(m) && (m.lastUpdated.None? || m.lastUpdated.value + REQUEUE_AFTER > now)
  }

  function ProviderIDOf(region: string, id: string): string {
    "alicloud://" + region + "." + id
  }

  function WithProviderID(m: Machine, i: Instance): Machine {
    m.(providerID := Some(ProviderIDOf(i.regionID, i.id)))
  }

  function WithSpecifics(m: Machine, i: Instance): Machine {
    var located := OrEmpty(m.labels)[REGION_LABEL := i.regionID][ZONE_LABEL := i.zoneID];
    var labels := if i.instanceType != "" then located[INSTANCE_TYPE_LABEL := i.instanceType] else located;
    var annotations := OrEmpty(m.annotations);
    m.(labels := Some(labels),
       specLabels := Some(OrEmpty(m.specLabels)),
       annotations := Some(if i.status != "" then annotations[INSTANCE_STATE_ANNOTATION := i.status] else annotations))
  }

  /** The addresses of one kind, in order, skipping empty ones; None when one does not parse. */
  function Parsed(parse: ParseIP, kind: AddressKind, raw: seq<string>): Option<seq<NodeAddress>> {
    if raw == [] then Some([])
    else
      match Parsed(parse, kind, raw[..|raw| - 1])
      case None => None
      case Some(before) =>
        var last := raw[|raw| - 1];
        if last == "" then Some(before)
        else if parse(last).None? then None
        else Some(before + [NodeAddress(kind, parse(last).value)])
  }

  function Joined(a: Option<seq<NodeAddress>>, b: Option<seq<NodeAddress>>): Option<seq<NodeAddress>> {
    if a.Some? && b.Some? then Some(a.value + b.value) else None
  }

  function NicAddresses(parse: ParseIP, nics: seq<Nic>): Option<seq<NodeAddress>> {
    if nics == [] then Some([])
    else
      var last := nics[|nics| - 1];
      Joined(Joined(NicAddresses(parse, nics[..|nics| - 1]), Parsed(parse, InternalIP, last.ipv6)),
             Parsed(parse, InternalIP, last.privateIps))
  }

  function NodeAddresses(parse: ParseIP, i: Instance): Option<seq<NodeAddress>> {
    Joined(NicAddresses(parse, i.nics), Parsed(parse, ExternalIP, i.publicIps))
  }

  /** setProviderStatus: with no instance, or an address that does not parse, only the first two fields change. */
  function WithStatus(parse: ParseIP, o: Object, i: Option<Instance>, c: Condition, now: int): Object {
    match i
    case None => o.(status := o.status.(instanceID := None, instanceState := None))
    case Some(instance) =>
      var named := o.(status := o.status.(instanceID := Some(instance.id), instanceState := Some(instance.status)));
      match NodeAddresses(parse, instance)
      case None => named
      case Some(addresses) =>
        Object(o.machine.(addresses := addresses + [NodeAddress(InternalDNS, o.machine.name)]),
               named.status.(conditions := WithCondition(o.status.conditions, c, now)))
  }

  method ExtractNodeAddresses(parse: ParseIP, instance: Option<Instance>)
    returns (addresses: Option<seq<NodeAddress>>)
    ensures addresses == if instance.None? then None else NodeAddresses(parse, instance.value)
  {
    if instance.None? {
      return None;
    }
    var i := instance.value;
    var found: seq<NodeAddress> := [];
    for n := 0 to |i.nics|
      invariant NicAddresses(parse, i.nics[..n]).Some? && NicAddresses(parse, i.nics[..n]).value == found
    {
      assert i.nics[..n + 1][..n] == i.nics[..n];
      var nic := i.nics[n];
      var ipv6 := AppendParsed(parse, InternalIP, nic.ipv6, found);
      var both := None;
      if ipv6.Some? {
        both := AppendParsed(parse, InternalIP, nic.privateIps, ipv6.value);
      }
      if both.None? {
        NicPrefixFails(parse, i.nics, n + 1);
        return None;
      }
      found := both.value;
    }
    assert i.nics[..|i.nics|] == i.nics;
    addresses := AppendParsed(parse, ExternalIP, i.publicIps, found);
  }

  /** One address loop: appends to what was found so far, or gives up at the first address that does not parse. */
  method AppendParsed(parse: ParseIP, kind: AddressKind, raw: seq<string>, found: seq<NodeAddress>)
    returns (all: Option<seq<NodeAddress>>)
    ensures all == Joined(Some(found), Parsed(parse, kind, raw))
  {
    var addresses := found;
    for j := 0 to |raw|
      invariant Parsed(parse, kind, raw[..j]).Some? && addresses == found + Parsed(parse, kind, raw[..j]).value
    {
      assert raw[..j + 1][..j] == raw[..j];
      if raw[j] != "" {
        var ip := parse(raw[j]);
        if ip.None? {
          var address := raw[j];
          assert address in raw && Unparsable(parse, address);
          ParsedFailsIff(parse, kind, raw);
          assert Parsed(parse, kind, raw).None?;
          return None;
        }
        addresses := addresses + [NodeAddress(kind, ip.value)];
      }
    }
    assert raw[..|raw|] == raw;
    all := Some(addresses);
  }

  predicate Unparsable(parse: ParseIP, address: string) {
    address != "" && parse(address).None?
  }

  lemma {:induction false} ParsedFailsIff(parse: ParseIP, kind: AddressKind, raw: seq<string>)
    ensures Parsed(parse, kind, raw).None? <==> exists a <- raw :: Unparsable(parse, a)
  {
    if raw != [] {
      var n := |raw| - 1;
      ParsedFailsIff(parse, kind, raw[..n]);
      assert forall a :: a in raw <==> a in raw[..n] || a == raw[n] by {
        assert raw == raw[..n] + [raw[n]];
      }
      assert Parsed(parse, kind, raw).None? <==> Parsed(parse, kind, raw[..n]).None? || Unparsable(parse, raw[n]);
    }
  }

  lemma {:induction false} NicPrefixFails(parse: ParseIP, nics: seq<Nic>, n: nat)
    requires n <= |nics| && NicAddresses(parse, nics[..n]).None?
    ensures NicAddresses(parse, nics).None?
  {
    if n < |nics| {
      assert nics[..|nics| - 1][..n] == nics[..n];
      NicPrefixFails(parse, nics[..|nics| - 1], n);
    } else {
      assert nics[..n] == nics;
    }
  }

  predicate NicUnparsable(parse: ParseIP, nic: Nic) {
    (exists a <- nic.ipv6 :: Unparsable(parse, a)) || (exists a <- nic.privateIps :: Unparsable(parse, a))
  }

  lemma {:induction false} NicsFailIff(parse: ParseIP, nics: seq<Nic>)
    ensures NicAddresses(parse, nics).None? <==> exists nic <- nics :: NicUnparsable(parse, nic)
  {
    if nics != [] {
      var n := |nics| - 1;
      NicsFailIff(parse, nics[..n]);
      assert forall nic :: nic in nics <==> nic in nics[..n] || nic == nics[n] by {
        assert nics == nics[..n] + [nics[n]];
      }
      ParsedFailsIff(parse, InternalIP, nics[n].ipv6);
      ParsedFailsIff(parse, InternalIP, nics[n].privateIps);
      assert NicAddresses(parse, nics).None? <==>
             NicAddresses(parse, nics[..n]).None? || NicUnparsable(parse, nics[n]);
    }
  }

  /**
   Setting the status: the condition and the addresses are stored exactly when there is an instance and
   all its addresses parse; otherwise they stay exactly as they were. In particular the failed
   condition of an unsuccessful create, which comes without an instance, is never stored.
   */
  lemma StatusStoredIff(parse: ParseIP, o: Object, i: Option<Instance>, c: Condition, now: int)
    ensures var after := WithStatus(parse, o, i, c, now);
            var stored := i.Some? && (forall nic <- i.value.nics :: !NicUnparsable(parse, nic))
                          && (forall a <- i.value.publicIps :: !Unparsable(parse, a));
            && (stored ==> after.status.conditions == WithCondition(o.status.conditions, c, now)
                           && NodeAddresses(parse, i.value).Some?
                           && after.machine.addresses ==
                              NodeAddresses(parse, i.value).value + [NodeAddress(InternalDNS, o.machine.name)])
            && after.machine == o.machine.(addresses := after.machine.addresses)
            && (!stored ==> after.status.conditions == o.status.conditions && after.machine == o.machine)
            && after.status.instanceID == (if i.Some? then Some(i.value.id) else None)
            && after.status.instanceState == (if i.Some? then Some(i.value.status) else None)
  {
    if i.Some? {
      NicsFailIff(parse, i.value.nics);
      ParsedFailsIff(parse, ExternalIP, i.value.publicIps);
    }
  }

  /** The machine label names the cluster; the upstream label counts only when the machine label is missing. */
  lemma MachineLabelWins(m: Machine)
    ensures Read(m.labels, "machine.openshift.io/cluster-api-cluster").Some? ==>
              ClusterID(m) == Read(m.labels, "machine.openshift.io/cluster-api-cluster")
    ensures Read(m.labels, "machine.openshift.io/cluster-api-cluster").None? ==>
              ClusterID(m) == Read(m.labels, "sigs.k8s.io/cluster-api-cluster")
    ensures ValidMachine(m) <==>
              exists id: string :: id != "" && Read(m.labels, "machine.openshift.io/cluster-api-cluster") == Some(id)
  {
  }

  /**
   What a write leaves to be read: region and zone, the type and the state when they are not empty, and
   every other label and annotation as it was.
   */
  lemma SpecificsAre(m: Machine, i: Instance, key: string)
    ensures var after := WithSpecifics(m, i);
            && Read(after.labels, key) ==
               (if key == "machine.openshift.io/region" then Some(i.regionID)
                else if key == "machine.openshift.io/zone" then Some(i.zoneID)
                else if key == "machine.openshift.io/instance-type" && i.instanceType != "" then Some(i.instanceType)
                else Read(m.labels, key))
            && Read(after.annotations, key) ==
               (if key == "machine.openshift.io/instance-state" && i.status != "" then Some(i.status)
                else Read(m.annotations, key))
            && Read(after.specLabels, key) == Read(m.specLabels, key)
            && after.labels.Some? && after.specLabels.Some? && after.annotations.Some?
            && after == m.(labels := after.labels, specLabels := after.specLabels, annotations := after.annotations)
  {
    assert |REGION_LABEL| == 27 && |ZONE_LABEL| == 25 && |INSTANCE_TYPE_LABEL| == 34;
  }

  /** The raw text is not empty and parses to the address. */
  predicate Yields(parse: ParseIP, raw: string, address: string) {
    raw != "" && parse(raw) == Some(address)
  }

  predicate AnyYields(parse: ParseIP, raw: seq<string>, address: string) {
    exists r <- raw :: Yields(parse, r, address)
  }

  predicate NicYields(parse: ParseIP, nic: Nic, address: string) {
    AnyYields(parse, nic.ipv6, address) || AnyYields(parse, nic.privateIps, address)
  }

  predicate AnyNicYields(parse: ParseIP, nics: seq<Nic>, address: string) {
    exists nic <- nics :: NicYields(parse, nic, address)
  }

  lemma AnyYieldsSnoc(parse: ParseIP, raw: seq<string>, last: string, address: string)
    ensures AnyYields(parse, raw + [last], address) <==> AnyYields(parse, raw, address) || Yields(parse, last, address)
  {
    assert forall r :: r in raw + [last] <==> r in raw || r == last;
  }

  lemma AnyNicYieldsSnoc(parse: ParseIP, nics: seq<Nic>, last: Nic, address: string)
    ensures AnyNicYields(parse, nics + [last], address) <==>
            AnyNicYields(parse, nics, address) || NicYields(parse, last, address)
  {
    hide NicYields;
    assert forall nic :: nic in nics + [last] <==> nic in nics || nic == last;
  }

  lemma {:induction false} ParsedAre(parse: ParseIP, kind: AddressKind, raw: seq<string>, a: NodeAddress)
    requires Parsed(parse, kind, raw).Some?
    ensures a in Parsed(parse, kind, raw).value <==> a.kind == kind && AnyYields(parse, raw, a.address)
  {
    hide AnyYields;
    if raw == [] {
      NothingYields(parse, a.address);
    } else {
      var n := |raw| - 1;
      ParsedAre(parse, kind, raw[..n], a);
      AnyYieldsSnoc(parse, raw[..n], raw[n], a.address);
      assert raw == raw[..n] + [raw[n]];
    }
  }

  lemma NothingYields(parse: ParseIP, address: string)
    ensures !AnyYields(parse, [], address) && !AnyNicYields(parse, [], address)
  {
  }

  lemma {:induction false} NicAddressesAre(parse: ParseIP, nics: seq<Nic>, a: NodeAddress)
    requires NicAddresses(parse, nics).Some?
    ensures a in NicAddresses(parse, nics).value <==> a.kind == InternalIP && AnyNicYields(parse, nics, a.address)
  {
    hide AnyNicYields, AnyYields;
    if nics == [] {
      NothingYields(parse, a.address);
    } else {
      var n := |nics| - 1;
      NicAddressesAre(parse, nics[..n], a);
      AnyNicYieldsSnoc(parse, nics[..n], nics[n], a.address);
      assert nics == nics[..n] + [nics[n]];
      ParsedAre(parse, InternalIP, nics[n].ipv6, a);
      ParsedAre(parse, InternalIP, nics[n].privateIps, a);
    }
  }

  /**
   The published addresses are exactly the parsed non-empty raw ones, those of the network interfaces as
   internal and the public ones as external, the internal ones first.
   */
  lemma AddressesAre(parse: ParseIP, i: Instance, a: NodeAddress)
    requires NodeAddresses(parse, i).Some?
    ensures var list := NodeAddresses(parse, i).value;
            && (a in list <==> ((a.kind == InternalIP && AnyNicYields(parse, i.nics, a.address)) ||
                                (a.kind == ExternalIP && AnyYields(parse, i.publicIps, a.address))))
            && (forall j, k :: 0 <= j < k < |list| && list[j].kind == ExternalIP ==> list[k].kind == ExternalIP)
  {
    hide AnyNicYields, AnyYields, NicAddresses, Parsed;
    var internal, external := NicAddresses(parse, i.nics).value, Parsed(parse, ExternalIP, i.publicIps).value;
    var list := NodeAddresses(parse, i).value;
    NicAddressesAre(parse, i.nics, a);
    ParsedAre(parse, ExternalIP, i.publicIps, a);
    forall j | 0 <= j < |list|
      ensures list[j].kind == if j < |internal| then InternalIP else ExternalIP
    {
      NicAddressesAre(parse, i.nics, list[j]);
      ParsedAre(parse, ExternalIP, i.publicIps, list[j]);
      if j < |internal| {
        assert list[j] == internal[j];
      } else {
        assert list[j] == external[j - |internal|];
      }
    }
  }

  /** The raw addresses of an instance with the kind they are published as, interface by interface, IPv6 first. */
  function RawAddresses(i: Instance): seq<NodeAddress> {
    RawNicAddresses(i.nics) + OfOneKind(ExternalIP, i.publicIps)
  }

  function RawNicAddresses(nics: seq<Nic>): seq<NodeAddress> {
    if nics == [] then []
    else
      var n := |nics| - 1;
      RawNicAddresses(nics[..n]) + (OfOneKind(InternalIP, nics[n].ipv6) + OfOneKind(InternalIP, nics[n].privateIps))
  }

  function OfOneKind(kind: AddressKind, raw: seq<string>): (all: seq<NodeAddress>)
    ensures |all| == |raw| && forall k :: 0 <= k < |raw| ==> all[k] == NodeAddress(kind, raw[k])
  {
    seq(|raw|, k requires 0 <= k < |raw| => NodeAddress(kind, raw[k]))
  }

  /** The raw addresses that are not empty, parsed, in order. */
  function Published(parse: ParseIP, raw: seq<NodeAddress>): seq<NodeAddress> {
    if raw == [] then []
    else if raw[0].address == "" || parse(raw[0].address).None? then Published(parse, raw[1..])
    else [NodeAddress(raw[0].kind, parse(raw[0].address).value)] + Published(parse, raw[1..])
  }

  lemma {:induction false} PublishedAppend(parse: ParseIP, a: seq<NodeAddress>, b: seq<NodeAddress>)
    ensures Published(parse, a + b) == Published(parse, a) + Published(parse, b)
  {
    if a == [] {
      assert a + b == b;
    } else {
      assert (a + b)[1..] == a[1..] + b;
      PublishedAppend(parse, a[1..], b);
    }
  }

  lemma {:induction false} ParsedInOrder(parse: ParseIP, kind: AddressKind, raw: seq<string>)
    requires Parsed(parse, kind, raw).Some?
    ensures Parsed(parse, kind, raw).value == Published(parse, OfOneKind(kind, raw))
  {
    if raw != [] {
      var n := |raw| - 1;
      ParsedInOrder(parse, kind, raw[..n]);
      assert OfOneKind(kind, raw) == OfOneKind(kind, raw[..n]) + [NodeAddress(kind, raw[n])];
      PublishedAppend(parse, OfOneKind(kind, raw[..n]), [NodeAddress(kind, raw[n])]);
    }
  }

  lemma {:induction false} NicAddressesInOrder(parse: ParseIP, nics: seq<Nic>)
    requires NicAddresses(parse, nics).Some?
    ensures NicAddresses(parse, nics).value == Published(parse, RawNicAddresses(nics))
  {
    hide Published, Parsed, OfOneKind;
    if nics == [] {
      NothingPublished(parse);
    } else {
      var n := |nics| - 1;
      var ipv6, private := OfOneKind(InternalIP, nics[n].ipv6), OfOneKind(InternalIP, nics[n].privateIps);
      NicAddressesInOrder(parse, nics[..n]);
      ParsedInOrder(parse, InternalIP, nics[n].ipv6);
      ParsedInOrder(parse, InternalIP, nics[n].privateIps);
      PublishedAppend(parse, ipv6, private);
      PublishedAppend(parse, RawNicAddresses(nics[..n]), ipv6 + private);
    }
  }

  lemma NothingPublished(parse: ParseIP)
    ensures Published(parse, []) == []
  {
  }

  /** The published addresses are in the order of the answer: interface by interface, IPv6 first, the public ones last. */
  lemma AddressesInOrder(parse: ParseIP, i: Instance)
    requires NodeAddresses(parse, i).Some?
    ensures NodeAddresses(parse, i).value == Published(parse, RawAddresses(i))
  {
    hide Published, Parsed, OfOneKind, NicAddresses;
    NicAddressesInOrder(parse, i.nics);
    ParsedInOrder(parse, ExternalIP, i.publicIps);
    PublishedAppend(parse, RawNicAddresses(i.nics), OfOneKind(ExternalIP, i.publicIps));
  }

  /** The labels the actuator writes are not the ones it finds the cluster by. */
  lemma WritesKeepCluster(m: Machine, i: Instance)
    ensures ClusterID(WithSpecifics(WithProviderID(m, i), i)) == ClusterID(m)
    ensures ValidMachine(WithSpecifics(WithProviderID(m, i), i)) == ValidMachine(m)
    ensures WithSpecifics(WithProviderID(m, i), i).name == m.name
  {
    assert |CLUSTER_ID_LABEL| == 40 && |UPSTREAM_CLUSTER_ID_LABEL| == 31;
    assert |REGION_LABEL| == 27 && |ZONE_LABEL| == 25 && |INSTANCE_TYPE_LABEL| == 34;
  }

  // --- The provider ID ---

  /** The encoding is injective over regions without a dot. */
  lemma ProviderIDInjective(r1: string, i1: string, r2: string, i2: string)
    requires '.' !in r1 && '.' !in r2
    ensures ProviderIDOf(r1, i1) == ProviderIDOf(r2, i2) <==> r1 == r2 && i1 == i2
  {
    ProviderIDClash(r1, i1, r2, i2);
    assert (r1 + ".")[|r1|] == '.' && (r2 + ".")[|r2|] == '.';
    assert forall k :: 0 <= k < |r1| ==> r1[k] != '.';
    assert forall k :: 0 <= k < |r2| ==> r2[k] != '.';
  }

  /** Equal provider IDs come from equal pairs, or from regions one of which, followed by a dot, begins the other. */
  lemma ProviderIDClash(r1: string, i1: string, r2: string, i2: string)
    ensures ProviderIDOf(r1, i1) == ProviderIDOf(r2, i2) ==>
              (r1 == r2 && i1 == i2) || r1 + "." <= r2 || r2 + "." <= r1
  {
    if ProviderIDOf(r1, i1) == ProviderIDOf(r2, i2) {
      var a, b := r1 + "." + i1, r2 + "." + i2;
      assert ProviderIDOf(r1, i1)[11..] == a && ProviderIDOf(r2, i2)[11..] == b;
      if |r1| == |r2| {
        assert a[..|r1|] == r1 && b[..|r1|] == r2;
        assert a[|r1| + 1..] == i1 && b[|r1| + 1..] == i2;
      } else if |r1| < |r2| {
        assert a[..|r1| + 1] == r1 + "." && b[..|r1| + 1] == r2[..|r1| + 1];
      } else {
        assert b[..|r2| + 1] == r2 + "." && a[..|r2| + 1] == r1[..|r2| + 1];
      }
    }
  }

  /** Two different regions admit clashing instances exactly when one, followed by a dot, begins the other. */
  lemma ProviderIDClashIff(r1: string, r2: string)
    requires r1 != r2
    ensures (exists i1, i2 :: ProviderIDOf(r1, i1) == ProviderIDOf(r2, i2)) <==> r1 + "." <= r2 || r2 + "." <= r1
  {
    if i1, i2 :| ProviderIDOf(r1, i1) == ProviderIDOf(r2, i2) {
      ProviderIDClash(r1, i1, r2, i2);
    }
    if r1 + "." <= r2 {
      var i1 := r2[|r1| + 1..] + ".x";
      assert r2 == r1 + "." + r2[|r1| + 1..];
      assert ProviderIDOf(r1, i1) == ProviderIDOf(r2, "x");
    }
    if r2 + "." <= r1 {
      var i2 := r1[|r2| + 1..] + ".x";
      assert r1 == r2 + "." + r1[|r2| + 1..];
      assert ProviderIDOf(r1, "x") == ProviderIDOf(r2, i2);
    }
  }
}
