/** The NAT gateway toggle of a Databricks workspace: find the workspace's
    VPC by its Name tag, the VPC's main route table and its NAT-gateway
    subnet; then either delete the default route, the NAT gateway and its
    Elastic IP, or allocate an Elastic IP, create a NAT gateway with it and
    route through it. Each EC2 call is an entry in the client's call log and
    each reply is a parameter. */
module NatGateway {
  import opened Wrappers
  import opened Text

  // ----- Response data -------------------------------------------------------

  datatype Tag = Tag(key: string, value: string)

  /** A VPC or a subnet as describe_vpcs / describe_subnets list it: its id
      and its tags (a missing Tags key is no tags). */
  datatype Tagged = Tagged(id: string, tags: seq<Tag>)

  /** A NAT gateway as describe_nat_gateways lists it: its id and the
      allocation ids of its addresses, in order. */
  datatype NatGatewayEntry = NatGatewayEntry(natGatewayId: string, allocationIds: seq<string>)

  /** The tag the lookups accept: key 'Name' and a value containing the
      searched text. */
  predicate NameTagContains(tag: Tag, needle: string) {
    tag.key == "Name" && Contains(tag.value, needle)
  }

  const NatSubnetName: string := "nat-gateway-subnet"

  // ----- Tag selection -------------------------------------------------------

  /** The number of qualifying tags among tags. */
  function TagCount(tags: seq<Tag>, needle: string): nat {
    if tags == [] then 0
    else TagCount(tags[..|tags| - 1], needle) + (if NameTagContains(tags[|tags| - 1], needle) then 1 else 0)
  }

  /** The total number of qualifying tags over all items. */
  function HitCount(items: seq<Tagged>, needle: string): nat {
    if items == [] then 0
    else HitCount(items[..|items| - 1], needle) + TagCount(items[|items| - 1].tags, needle)
  }

  /** item appended once for each qualifying tag among tags, in order. */
  function TagHits(item: Tagged, tags: seq<Tag>, needle: string): (r: seq<Tagged>)
    ensures |r| == TagCount(tags, needle)
    ensures forall x :: x in r ==> x == item
  {
    if tags == [] then []
    else TagHits(item, tags[..|tags| - 1], needle) + (if NameTagContains(tags[|tags| - 1], needle) then [item] else [])
  }

  /** The matched list the lookups build: every item once per qualifying
      tag, in listing order. */
  function Matches(items: seq<Tagged>, needle: string): (r: seq<Tagged>)
    ensures |r| == HitCount(items, needle)
  {
    if items == [] then []
    else Matches(items[..|items| - 1], needle) + TagHits(items[|items| - 1], items[|items| - 1].tags, needle)
  }

  /** The matched list holds exactly the items with a qualifying tag. */
  lemma {:induction false} MatchesMembers(items: seq<Tagged>, needle: string, x: Tagged)
    ensures x in Matches(items, needle) <==>
              exists k :: 0 <= k < |items| && items[k] == x && TagCount(items[k].tags, needle) > 0
    decreases |items|
  {
    if items != [] {
      var init, last := items[..|items| - 1], items[|items| - 1];
      MatchesMembers(init, needle, x);
      var hits := TagHits(last, last.tags, needle);
      assert x in hits <==> x == last && |hits| > 0 by {
        if x == last && |hits| > 0 {
          assert hits[0] in hits;
        }
      }
      if exists k :: 0 <= k < |items| && items[k] == x && TagCount(items[k].tags, needle) > 0 {
        var k :| 0 <= k < |items| && items[k] == x && TagCount(items[k].tags, needle) > 0;
        if k < |init| {
          assert init[k] == x;
        }
      }
      if x in Matches(init, needle) {
        var k :| 0 <= k < |init| && init[k] == x && TagCount(init[k].tags, needle) > 0;
        assert items[k] == x;
      }
    }
  }

  /** No hits at all exactly when no item has a qualifying tag. */
  lemma {:induction false} NoHits(items: seq<Tagged>, needle: string)
    ensures HitCount(items, needle) == 0 <==> forall k :: 0 <= k < |items| ==> TagCount(items[k].tags, needle) == 0
    decreases |items|
  {
    if items != [] {
      var init := items[..|items| - 1];
      NoHits(init, needle);
      assert forall k :: 0 <= k < |init| ==> init[k] == items[k];
    }
  }

  /** Predicate of the single-hit case: the k-th item has one qualifying
      tag and every other item none. */
  predicate OnlyHitAt(items: seq<Tagged>, needle: string, k: int) {
    && 0 <= k < |items| && TagCount(items[k].tags, needle) == 1
    && forall j :: 0 <= j < |items| && j != k ==> TagCount(items[j].tags, needle) == 0
  }

  /** Exactly one hit exactly when one item has one qualifying tag and every
      other item has none. */
  lemma {:induction false} OneHit(items: seq<Tagged>, needle: string)
    ensures HitCount(items, needle) == 1 <==> exists k :: OnlyHitAt(items, needle, k)
    decreases |items|
  {
    if items != [] {
      var n := |items|;
      var init := items[..n - 1];
      assert forall k :: 0 <= k < |init| ==> init[k] == items[k];
      OneHit(init, needle);
      NoHits(init, needle);
      if HitCount(items, needle) == 1 {
        if HitCount(init, needle) == 1 {
          var k :| OnlyHitAt(init, needle, k);
          assert OnlyHitAt(items, needle, k);
        } else {
          assert OnlyHitAt(items, needle, n - 1);
        }
      }
      if exists k :: OnlyHitAt(items, needle, k) {
        var k :| OnlyHitAt(items, needle, k);
        if k < n - 1 {
          assert OnlyHitAt(init, needle, k);
        } else {
          assert forall j :: 0 <= j < |init| ==> TagCount(init[j].tags, needle) == 0;
        }
      }
    }
  }

  /** The exactly-one rule of the lookups: the id of the single match, or
      the number of matches. */
  function SelectOne(items: seq<Tagged>, needle: string): Result<string, nat> {
    var matched := Matches(items, needle);
    if |matched| != 1 then Failure(|matched|) else Success(matched[0].id)
  }

  /** A lookup succeeds exactly when one item carries one qualifying tag and
      no other item carries any, and then it gives that item's id; an item
      with two qualifying tags is counted twice. */
  lemma SelectOneExactly(items: seq<Tagged>, needle: string)
    ensures SelectOne(items, needle).Success? <==> exists k :: OnlyHitAt(items, needle, k)
    ensures forall k :: OnlyHitAt(items, needle, k) ==> SelectOne(items, needle) == Success(items[k].id)
    ensures SelectOne(items, needle).Failure? ==> SelectOne(items, needle).error == HitCount(items, needle)
  {
    OneHit(items, needle);
    forall k | OnlyHitAt(items, needle, k) ensures SelectOne(items, needle) == Success(items[k].id) {
      var m := Matches(items, needle);
      MatchesMembers(items, needle, m[0]);
      var k' :| 0 <= k' < |items| && items[k'] == m[0] && TagCount(items[k'].tags, needle) > 0;
      assert k' == k;
    }
  }

  /** Two qualifying tags on one item already make the lookup fail. */
  lemma TwoTagsFail(items: seq<Tagged>, needle: string, k: int)
    requires 0 <= k < |items| && TagCount(items[k].tags, needle) >= 2
    ensures SelectOne(items, needle).Failure?
  {
    SelectOneExactly(items, needle);
  }

  /** The nested loop of the lookups: items in order, each item's tags in
      order, an item appended for every qualifying tag. */
  method CollectMatches(items: seq<Tagged>, needle: string) returns (matched: seq<Tagged>)
    ensures matched == Matches(items, needle)
  {
    matched := [];
    var i := 0;
    while i < |items|
      invariant 0 <= i <= |items|
      invariant matched == Matches(items[..i], needle)
    {
      var item := items[i];
      var before := matched;
      var j := 0;
      while j < |item.tags|
        invariant 0 <= j <= |item.tags|
        invariant matched == before + TagHits(item, item.tags[..j], needle)
      {
        assert item.tags[..j + 1][..j] == item.tags[..j];
        var tag := item.tags[j];
        if tag.key == "Name" && Contains(tag.value, needle) {
          matched := matched + [item];
        }
        j := j + 1;
      }
      assert item.tags[..j] == item.tags;
      assert items[..i + 1][..i] == items[..i];
      i := i + 1;
    }
    assert items[..i] == items;
  }

  // ----- The EC2 client ------------------------------------------------------

  /** The EC2 requests, with the arguments the model tracks. */
  datatype Call =
    | DescribeVpcs
    | DescribeMainRouteTables(vpcId: string)
    | DescribeSubnets(vpcId: string)
    | DescribeAvailableNatGateways(subnetId: string)
    | DescribeNatGateway(natGatewayId: string)
    | DeleteDefaultRoute(routeTableId: string)
    | DeleteNatGateway(natGatewayId: string)
    | AwaitDeleted(natGatewayId: string)
    | ReleaseAddress(allocationId: string)
    | AllocateAddress
    | CreateNatGateway(allocationId: string, subnetId: string)
    | AwaitAvailable(natGatewayId: string)
    | CreateDefaultRoute(natGatewayId: string, routeTableId: string)

  /** The boto3 EC2 client: the requests sent so far, in order. */
  class Client {
    var calls: seq<Call>

    constructor ()
      ensures calls == []
    {
      calls := [];
    }

    method Send(c: Call)
      modifies this
      ensures calls == old(calls) + [c]
    {
      calls := calls + [c];
    }
  }

  /** The steps whose reply status is checked. */
  datatype Step = RemoveRoute | RemoveNatGateway | Release | Allocate | CreateGateway | AddRoute

  /** What the toggle raises. */
  datatype Fault =
    | VpcsFound(count: nat, name: string)           // ValueError: not exactly one VPC
    | NoMainRouteTable(vpcId: string)               // IndexError on an empty RouteTables
    | SubnetsFound(count: nat, vpcId: string)       // ValueError: not exactly one subnet
    | NatGatewaysFound(count: nat, subnetId: string) // ValueError: not exactly one NAT gateway
    | NoAddress(natGatewayId: string)               // IndexError on empty NatGatewayAddresses
    | StepFailed(step: Step, status: int)           // ValueError after a status other than 200

  // ----- Finding the workspace's network -------------------------------------

  /** What the shared constructor finds. */
  datatype Network = Network(vpcId: string, routeTable: string, subnetIdForNatgw: string)

  function VpcLookup(vpcs: seq<Tagged>, name: string): Result<string, Fault> {
    match SelectOne(vpcs, name)
    case Success(id) => Success(id)
    case Failure(n) => Failure(VpcsFound(n, name))
  }

  function SubnetLookup(subnets: seq<Tagged>, vpcId: string): Result<string, Fault> {
    match SelectOne(subnets, NatSubnetName)
    case Success(id) => Success(id)
    case Failure(n) => Failure(SubnetsFound(n, vpcId))
  }

  /** _find_vpc_id_by_name. */
  method FindVpcIdByName(client: Client, vpcs: seq<Tagged>, name: string) returns (r: Result<string, Fault>)
    modifies client
    ensures client.calls == old(client.calls) + [DescribeVpcs]
    ensures r == VpcLookup(vpcs, name)
  {
    client.Send(DescribeVpcs);
    var matched := CollectMatches(vpcs, name);
    if |matched| != 1 {
      return Failure(VpcsFound(|matched|, name));
    }
    return Success(matched[0].id);
  }

  /** _find_default_route_table_by_vpcid: the first main route table of the
      VPC; none at all is an IndexError. */
  method FindDefaultRouteTable(client: Client, vpcId: string, routeTables: seq<string>)
    returns (r: Result<string, Fault>)
    modifies client
    ensures client.calls == old(client.calls) + [DescribeMainRouteTables(vpcId)]
    ensures r.Success? <==> routeTables != []
    ensures r.Success? ==> r.value == routeTables[0]
    ensures r.Failure? ==> r.error == NoMainRouteTable(vpcId)
  {
    client.Send(DescribeMainRouteTables(vpcId));
    if routeTables == [] {
      return Failure(NoMainRouteTable(vpcId));
    }
    return Success(routeTables[0]);
  }

  /** _find_subnet_id_for_natgw_by_vpc_id. */
  method FindSubnetIdForNatgw(client: Client, vpcId: string, subnets: seq<Tagged>) returns (r: Result<string, Fault>)
    modifies client
    ensures client.calls == old(client.calls) + [DescribeSubnets(vpcId)]
    ensures r == SubnetLookup(subnets, vpcId)
  {
    client.Send(DescribeSubnets(vpcId));
    var matched := CollectMatches(subnets, NatSubnetName);
    if |matched| != 1 {
      return Failure(SubnetsFound(|matched|, vpcId));
    }
    return Success(matched[0].id);
  }

  /** The replies the shared constructor reads. */
  datatype NetworkReplies = NetworkReplies(vpcs: seq<Tagged>, routeTables: seq<string>, subnets: seq<Tagged>)

  /** The shared constructor's outcome: the three lookups in turn, the first
      fault ending it. */
  function LocateNetwork(workspaceId: string, replies: NetworkReplies): Result<Network, Fault> {
    var vpcId :- VpcLookup(replies.vpcs, workspaceId);
    if replies.routeTables == [] then Failure(NoMainRouteTable(vpcId))
    else
      var subnetId :- SubnetLookup(replies.subnets, vpcId);
      Success(Network(vpcId, replies.routeTables[0], subnetId))
  }

  /** The requests the shared constructor sends before it ends. */
  function LocateCalls(workspaceId: string, replies: NetworkReplies): seq<Call> {
    match VpcLookup(replies.vpcs, workspaceId)
    case Failure(_) => [DescribeVpcs]
    case Success(vpcId) =>
      [DescribeVpcs, DescribeMainRouteTables(vpcId)] +
      (if replies.routeTables == [] then [] else [DescribeSubnets(vpcId)])
  }

  /** The network is found exactly when the workspace's VPC and the NAT
      subnet are each the single match and the VPC has a main route table. */
  lemma LocateNetworkSucceeds(workspaceId: string, replies: NetworkReplies)
    ensures LocateNetwork(workspaceId, replies).Success? <==>
              && SelectOne(replies.vpcs, workspaceId).Success?
              && replies.routeTables != []
              && SelectOne(replies.subnets, NatSubnetName).Success?
    ensures LocateNetwork(workspaceId, replies).Success? ==>
              var nw := LocateNetwork(workspaceId, replies).value;
              && LocateCalls(workspaceId, replies) ==
                 [DescribeVpcs, DescribeMainRouteTables(nw.vpcId), DescribeSubnets(nw.vpcId)]
              && (exists k :: OnlyHitAt(replies.vpcs, workspaceId, k) && replies.vpcs[k].id == nw.vpcId)
              && (exists k :: OnlyHitAt(replies.subnets, NatSubnetName, k) && replies.subnets[k].id == nw.subnetIdForNatgw)
  {
    SelectOneExactly(replies.vpcs, workspaceId);
    SelectOneExactly(replies.subnets, NatSubnetName);
  }

  /** ToggleNATGatewayForDatabricksWorkspaceTrait.__init__. */
  method Locate(client: Client, workspaceId: string, replies: NetworkReplies) returns (r: Result<Network, Fault>)
    modifies client
    ensures client.calls == old(client.calls) + LocateCalls(workspaceId, replies)
    ensures r == LocateNetwork(workspaceId, replies)
  {
    var vpcId :- FindVpcIdByName(client, replies.vpcs, workspaceId);
    var routeTable :- FindDefaultRouteTable(client, vpcId, replies.routeTables);
    var subnetId :- FindSubnetIdForNatgw(client, vpcId, replies.subnets);
    return Success(Network(vpcId, routeTable, subnetId));
  }

  // ----- DeleteNATGateway ----------------------------------------------------

  /** The steps of a deletion, all other replies left aside. */
  datatype DeleteReplies = DeleteReplies(routeStatus: int, natStatus: int, releaseStatus: int)

  /** The deleting toggle once constructed. */
  class Deleter {
    const client: Client
    const network: Network
    const natgwId: string
    const eipAssociationId: string

    constructor (client: Client, network: Network, natgwId: string, eipAssociationId: string)
      ensures this.client == client && this.network == network
      ensures this.natgwId == natgwId && this.eipAssociationId == eipAssociationId
    {
      this.client, this.network := client, network;
      this.natgwId, this.eipAssociationId := natgwId, eipAssociationId;
    }

    /** delete_route_to_natgw: a status other than 200 raises. */
    method DeleteRouteToNatgw(status: int) returns (r: Result<(), Fault>)
      modifies client
      ensures client.calls == old(client.calls) + [DeleteDefaultRoute(network.routeTable)]
      ensures r == if status == 200 then Success(()) else Failure(StepFailed(RemoveRoute, status))
    {
      client.Send(DeleteDefaultRoute(network.routeTable));
      if status != 200 {
        return Failure(StepFailed(RemoveRoute, status));
      }
      return Success(());
    }

    /** delete_natgw: on 200 it waits for the gateway to be deleted; any
        other status raises. */
    method DeleteNatgw(status: int) returns (r: Result<(), Fault>)
      modifies client
      ensures client.calls == old(client.calls) + [DeleteNatGateway(natgwId)] +
                              (if status == 200 then [AwaitDeleted(natgwId)] else [])
      ensures r == if status == 200 then Success(()) else Failure(StepFailed(RemoveNatGateway, status))
    {
      client.Send(DeleteNatGateway(natgwId));
      if status != 200 {
        return Failure(StepFailed(RemoveNatGateway, status));
      }
      client.Send(AwaitDeleted(natgwId));
      return Success(());
    }

    /** release_eip: a status other than 200 raises. */
    method ReleaseEip(status: int) returns (r: Result<(), Fault>)
      modifies client
      ensures client.calls == old(client.calls) + [ReleaseAddress(eipAssociationId)]
      ensures r == if status == 200 then Success(()) else Failure(StepFailed(Release, status))
    {
      client.Send(ReleaseAddress(eipAssociationId));
      if status != 200 {
        return Failure(StepFailed(Release, status));
      }
      return Success(());
    }

    /** DeleteNATGateway.run. */
    method Run(replies: DeleteReplies) returns (r: Result<(), Fault>)
      modifies client
      ensures client.calls == old(client.calls) +
                DeletionCalls(network.routeTable, natgwId, eipAssociationId, replies)
      ensures r == DeletionOutcome(replies)
    {
      var _ :- DeleteRouteToNatgw(replies.routeStatus);
      var _ :- DeleteNatgw(replies.natStatus);
      var _ :- ReleaseEip(replies.releaseStatus);
      return Success(());
    }
  }

  /** The whole deletion plan, in order. */
  function DeletionPlan(routeTable: string, natgwId: string, allocationId: string): seq<Call> {
    [DeleteDefaultRoute(routeTable), DeleteNatGateway(natgwId), AwaitDeleted(natgwId), ReleaseAddress(allocationId)]
  }

  /** The requests a deletion sends: the plan up to the first step that
      does not answer 200. */
  function DeletionCalls(routeTable: string, natgwId: string, allocationId: string, replies: DeleteReplies): seq<Call> {
    var plan := DeletionPlan(routeTable, natgwId, allocationId);
    if replies.routeStatus != 200 then plan[..1]
    else if replies.natStatus != 200 then plan[..2]
    else plan
  }

  function DeletionOutcome(replies: DeleteReplies): Result<(), Fault> {
    if replies.routeStatus != 200 then Failure(StepFailed(RemoveRoute, replies.routeStatus))
    else if replies.natStatus != 200 then Failure(StepFailed(RemoveNatGateway, replies.natStatus))
    else if replies.releaseStatus != 200 then Failure(StepFailed(Release, replies.releaseStatus))
    else Success(())
  }

  /** The route goes before the gateway and the gateway before its address:
      the calls are always a prefix of the plan, a request is sent only when
      every checked step before it answered 200, and the deletion succeeds
      only when all three did. */
  lemma DeletionOrder(routeTable: string, natgwId: string, allocationId: string, replies: DeleteReplies)
    ensures var calls := DeletionCalls(routeTable, natgwId, allocationId, replies);
            var plan := DeletionPlan(routeTable, natgwId, allocationId);
            && 1 <= |calls| <= |plan| && calls == plan[..|calls|]
            && (DeleteNatGateway(natgwId) in calls <==> replies.routeStatus == 200)
            && (ReleaseAddress(allocationId) in calls <==> replies.routeStatus == 200 && replies.natStatus == 200)
    ensures DeletionOutcome(replies).Success? <==>
              replies.routeStatus == 200 && replies.natStatus == 200 && replies.releaseStatus == 200
  {
    var plan := DeletionPlan(routeTable, natgwId, allocationId);
    assert plan[..1] == [DeleteDefaultRoute(routeTable)];
    assert plan[..2] == [DeleteDefaultRoute(routeTable), DeleteNatGateway(natgwId)];
  }

  /** The lookups DeleteNATGateway.__init__ adds: the one available NAT
      gateway in the subnet, then the allocation id of its first address. */
  datatype GatewayReplies = GatewayReplies(inSubnet: seq<NatGatewayEntry>, byId: seq<NatGatewayEntry>)

  /** _find_natgw_id_by_subnet_id. */
  method FindNatgwIdBySubnetId(client: Client, subnetId: string, gateways: seq<NatGatewayEntry>)
    returns (r: Result<string, Fault>)
    modifies client
    ensures client.calls == old(client.calls) + [DescribeAvailableNatGateways(subnetId)]
    ensures r.Success? <==> |gateways| == 1
    ensures r.Success? ==> r.value == gateways[0].natGatewayId
    ensures r.Failure? ==> r.error == NatGatewaysFound(|gateways|, subnetId)
  {
    client.Send(DescribeAvailableNatGateways(subnetId));
    if |gateways| != 1 {
      return Failure(NatGatewaysFound(|gateways|, subnetId));
    }
    return Success(gateways[0].natGatewayId);
  }

  /** _find_eip_association_id_by_natgw_id: the error names the subnet, not
      the gateway, as the source's message does. */
  method FindEipAssociationId(client: Client, natgwId: string, subnetId: string, gateways: seq<NatGatewayEntry>)
    returns (r: Result<string, Fault>)
    modifies client
    ensures client.calls == old(client.calls) + [DescribeNatGateway(natgwId)]
    ensures r.Success? <==> |gateways| == 1 && gateways[0].allocationIds != []
    ensures r.Success? ==> r.value == gateways[0].allocationIds[0]
    ensures |gateways| != 1 ==> r == Failure(NatGatewaysFound(|gateways|, subnetId))
    ensures |gateways| == 1 && gateways[0].allocationIds == [] ==> r == Failure(NoAddress(natgwId))
  {
    client.Send(DescribeNatGateway(natgwId));
    if |gateways| != 1 {
      return Failure(NatGatewaysFound(|gateways|, subnetId));
    }
    if gateways[0].allocationIds == [] {
      return Failure(NoAddress(natgwId));
    }
    return Success(gateways[0].allocationIds[0]);
  }

  /** DeleteNATGateway.__init__: the shared lookups, then the gateway and
      its address. */
  method NewDeleter(client: Client, workspaceId: string, replies: NetworkReplies, gateways: GatewayReplies)
    returns (r: Result<Deleter, Fault>)
    modifies client
    ensures |old(client.calls)| <= |client.calls| && client.calls[..|old(client.calls)|] == old(client.calls)
    ensures LocateNetwork(workspaceId, replies).Failure? ==>
              r == Failure(LocateNetwork(workspaceId, replies).error) &&
              client.calls == old(client.calls) + LocateCalls(workspaceId, replies)
    ensures var loc := LocateNetwork(workspaceId, replies);
            loc.Success? && |gateways.inSubnet| != 1 ==>
              && r == Failure(NatGatewaysFound(|gateways.inSubnet|, loc.value.subnetIdForNatgw))
              && client.calls == old(client.calls) + LocateCalls(workspaceId, replies) +
                   [DescribeAvailableNatGateways(loc.value.subnetIdForNatgw)]
    ensures var loc := LocateNetwork(workspaceId, replies);
            loc.Success? && |gateways.inSubnet| == 1 && |gateways.byId| != 1 ==>
              && r == Failure(NatGatewaysFound(|gateways.byId|, loc.value.subnetIdForNatgw))
              && client.calls == old(client.calls) + LocateCalls(workspaceId, replies) +
                   [DescribeAvailableNatGateways(loc.value.subnetIdForNatgw), DescribeNatGateway(gateways.inSubnet[0].natGatewayId)]
    ensures var loc := LocateNetwork(workspaceId, replies);
            loc.Success? && |gateways.inSubnet| == 1 && |gateways.byId| == 1 && gateways.byId[0].allocationIds == [] ==>
              && r == Failure(NoAddress(gateways.inSubnet[0].natGatewayId))
              && client.calls == old(client.calls) + LocateCalls(workspaceId, replies) +
                   [DescribeAvailableNatGateways(loc.value.subnetIdForNatgw), DescribeNatGateway(gateways.inSubnet[0].natGatewayId)]
    ensures (&& LocateNetwork(workspaceId, replies).Success? && |gateways.inSubnet| == 1
             && |gateways.byId| == 1 && gateways.byId[0].allocationIds != []) ==> r.Success?
    ensures r.Success? ==>
              && fresh(r.value) && r.value.client == client
              && LocateNetwork(workspaceId, replies) == Success(r.value.network)
              && |gateways.inSubnet| == 1 && r.value.natgwId == gateways.inSubnet[0].natGatewayId
              && |gateways.byId| == 1 && gateways.byId[0].allocationIds != []
              && r.value.eipAssociationId == gateways.byId[0].allocationIds[0]
              && client.calls == old(client.calls) + LocateCalls(workspaceId, replies) +
                   [DescribeAvailableNatGateways(r.value.network.subnetIdForNatgw), DescribeNatGateway(r.value.natgwId)]
  {
    var network :- Locate(client, workspaceId, replies);
    var natgwId :- FindNatgwIdBySubnetId(client, network.subnetIdForNatgw, gateways.inSubnet);
    var eip :- FindEipAssociationId(client, natgwId, network.subnetIdForNatgw, gateways.byId);
    var d := new Deleter(client, network, natgwId, eip);
    return Success(d);
  }

  // ----- CreateNATGateway ----------------------------------------------------

  /** The replies of a creation: allocate_address (status and allocation id),
      create_nat_gateway (status and gateway id) and create_route. */
  datatype CreateReplies = CreateReplies(allocateStatus: int, allocationId: string,
                                         createStatus: int, natGatewayId: string, routeStatus: int)

  /** The creating toggle once constructed. */
  class Creator {
    const client: Client
    const network: Network

    constructor (client: Client, network: Network)
      ensures this.client == client && this.network == network
    {
      this.client, this.network := client, network;
    }

    /** create_eip: the new allocation id on 200, a fault otherwise. */
    method CreateEip(status: int, allocationId: string) returns (r: Result<string, Fault>)
      modifies client
      ensures client.calls == old(client.calls) + [AllocateAddress]
      ensures r == if status == 200 then Success(allocationId) else Failure(StepFailed(Allocate, status))
    {
      client.Send(AllocateAddress);
      if status != 200 {
        return Failure(StepFailed(Allocate, status));
      }
      return Success(allocationId);
    }

    /** create_natgw: the gateway is created in the NAT subnet with the
        given allocation id and waited for before the status is looked at. */
    method CreateNatgw(eipAssociationId: string, status: int, natid: string) returns (r: Result<string, Fault>)
      modifies client
      ensures client.calls == old(client.calls) +
                [CreateNatGateway(eipAssociationId, network.subnetIdForNatgw), AwaitAvailable(natid)]
      ensures r == if status == 200 then Success(natid) else Failure(StepFailed(CreateGateway, status))
    {
      client.Send(CreateNatGateway(eipAssociationId, network.subnetIdForNatgw));
      client.Send(AwaitAvailable(natid));
      if status != 200 {
        return Failure(StepFailed(CreateGateway, status));
      }
      return Success(natid);
    }

    /** create_route_to_natgw: a status other than 200 raises. */
    method CreateRouteToNatgw(natgwId: string, status: int) returns (r: Result<(), Fault>)
      modifies client
      ensures client.calls == old(client.calls) + [CreateDefaultRoute(natgwId, network.routeTable)]
      ensures r == if status == 200 then Success(()) else Failure(StepFailed(AddRoute, status))
    {
      client.Send(CreateDefaultRoute(natgwId, network.routeTable));
      if status != 200 {
        return Failure(StepFailed(AddRoute, status));
      }
      return Success(());
    }

    /** CreateNATGateway.run. */
    method Run(replies: CreateReplies) returns (r: Result<(), Fault>)
      modifies client
      ensures client.calls == old(client.calls) + CreationCalls(network, replies)
      ensures r == CreationOutcome(replies)
    {
      var eip :- CreateEip(replies.allocateStatus, replies.allocationId);
      var natgwId :- CreateNatgw(eip, replies.createStatus, replies.natGatewayId);
      var _ :- CreateRouteToNatgw(natgwId, replies.routeStatus);
      return Success(());
    }
  }

  /** The whole creation plan: the gateway gets the new allocation id and
      the route the new gateway id. */
  function CreationPlan(network: Network, replies: CreateReplies): seq<Call> {
    [AllocateAddress, CreateNatGateway(replies.allocationId, network.subnetIdForNatgw),
     AwaitAvailable(replies.natGatewayId), CreateDefaultRoute(replies.natGatewayId, network.routeTable)]
  }

  /** The requests a creation sends: the plan up to the first step that does
      not answer 200. */
  function CreationCalls(network: Network, replies: CreateReplies): seq<Call> {
    var plan := CreationPlan(network, replies);
    if replies.allocateStatus != 200 then plan[..1]
    else if replies.createStatus != 200 then plan[..3]
    else plan
  }

  function CreationOutcome(replies: CreateReplies): Result<(), Fault> {
    if replies.allocateStatus != 200 then Failure(StepFailed(Allocate, replies.allocateStatus))
    else if replies.createStatus != 200 then Failure(StepFailed(CreateGateway, replies.createStatus))
    else if replies.routeStatus != 200 then Failure(StepFailed(AddRoute, replies.routeStatus))
    else Success(())
  }

  /** The address comes before the gateway and the gateway before the
      route: the calls are a prefix of the plan; the gateway is created
      only after the address was allocated, with its allocation id, in the
      NAT subnet; the route is created only after the gateway answered 200,
      through that gateway, on the main route table. */
  lemma CreationOrder(network: Network, replies: CreateReplies)
    ensures var calls := CreationCalls(network, replies);
            var plan := CreationPlan(network, replies);
            && 1 <= |calls| <= |plan| && calls == plan[..|calls|]
            && (forall a, s :: CreateNatGateway(a, s) in calls ==>
                  replies.allocateStatus == 200 && a == replies.allocationId && s == network.subnetIdForNatgw)
            && (forall g, t :: CreateDefaultRoute(g, t) in calls ==>
                  replies.createStatus == 200 && g == replies.natGatewayId && t == network.routeTable)
    ensures CreationOutcome(replies).Success? <==>
              replies.allocateStatus == 200 && replies.createStatus == 200 && replies.routeStatus == 200
  {
    var plan := CreationPlan(network, replies);
    assert plan[..1] == [AllocateAddress];
    assert plan[..3] == [AllocateAddress, plan[1], plan[2]];
  }

  /** CreateNATGateway.__init__: the shared lookups only. */
  method NewCreator(client: Client, workspaceId: string, replies: NetworkReplies) returns (r: Result<Creator, Fault>)
    modifies client
    ensures client.calls == old(client.calls) + LocateCalls(workspaceId, replies)
    ensures LocateNetwork(workspaceId, replies).Failure? ==> r == Failure(LocateNetwork(workspaceId, replies).error)
    ensures LocateNetwork(workspaceId, replies).Success? ==> r.Success?
    ensures r.Success? ==> fresh(r.value) && r.value.client == client &&
                           LocateNetwork(workspaceId, replies) == Success(r.value.network)
  {
    var network :- Locate(client, workspaceId, replies);
    var c := new Creator(client, network);
    return Success(c);
  }
}
