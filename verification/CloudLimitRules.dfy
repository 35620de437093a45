/** Which vendor budgets a cloud write draws on, and how large they are. */
module CloudLimitRules {
  import opened Wrappers

  datatype Service = Ec2 | Lightsail | AzureVm | Linode

  /** The vendor API operation behind a rotation or lifecycle action. */
  datatype Operation =
    // EC2
    | ModifyNetworkInterfaceAttribute | AllocateAddress | AssociateAddress | ReleaseAddress
    | AssignIpv6Addresses | UnassignIpv6Addresses | StartInstances | StopInstances | TerminateInstances
    // Lightsail
    | AllocateStaticIp | DetachStaticIp | AttachStaticIp | ReleaseStaticIp | SetIpAddressType
    | StartInstance | StopInstance | DeleteInstance
    // Azure
    | PublicIpCreateOrUpdate | NetworkInterfaceCreateOrUpdate | PublicIpDelete
    | VirtualMachineStart | VirtualMachineDeallocate | VirtualMachineDelete
    // Linode
    | InstanceIpAllocate | InstanceReboot | InstanceIpDelete | InstanceBoot | InstanceShutdown
    | InstanceDelete | InstanceCreate | IpAssign

  datatype Action =
    | Ec2AutoIpv4Disable | Ec2AutoIpv4Enable | Ec2EipAllocate | Ec2EipAssociate | Ec2EipRelease
    | Ec2Ipv6Assign | Ec2Ipv6Unassign | Ec2Start | Ec2Stop | Ec2Delete
    | StaticIpAllocate | StaticIpDetach | StaticIpAttach | StaticIpRelease
    | LightsailIpv6Disable | LightsailIpv6Enable | LightsailStart | LightsailStop | LightsailDelete
    | AzureIpAllocate | AzureIpAssociate | AzureIpDelete | AzureStart | AzureStop | AzureDelete
    | LinodeIpAllocate | LinodeReboot | LinodeIpRelease | LinodeStart | LinodeStop | LinodeDelete
    | LinodeSwapAllocate | LinodeIpSwap | LinodeSwapDelete
    | Unlisted(name: string)

  /** The static-IP family, whose windows also count the rest of the plan. */
  predicate IsStaticIp(action: Action) {
    action.StaticIpAllocate? || action.StaticIpDetach? || action.StaticIpAttach? || action.StaticIpRelease?
  }

  function OperationOf(service: Service, action: Action): Option<Operation> {
    match (service, action)
    case (Ec2, Ec2AutoIpv4Disable) => Some(ModifyNetworkInterfaceAttribute)
    case (Ec2, Ec2AutoIpv4Enable) => Some(ModifyNetworkInterfaceAttribute)
    case (Ec2, Ec2EipAllocate) => Some(AllocateAddress)
    case (Ec2, Ec2EipAssociate) => Some(AssociateAddress)
    case (Ec2, Ec2EipRelease) => Some(ReleaseAddress)
    case (Ec2, Ec2Ipv6Assign) => Some(AssignIpv6Addresses)
    case (Ec2, Ec2Ipv6Unassign) => Some(UnassignIpv6Addresses)
    case (Ec2, Ec2Start) => Some(StartInstances)
    case (Ec2, Ec2Stop) => Some(StopInstances)
    case (Ec2, Ec2Delete) => Some(TerminateInstances)
    case (Lightsail, StaticIpAllocate) => Some(AllocateStaticIp)
    case (Lightsail, StaticIpDetach) => Some(DetachStaticIp)
    case (Lightsail, StaticIpAttach) => Some(AttachStaticIp)
    case (Lightsail, StaticIpRelease) => Some(ReleaseStaticIp)
    case (Lightsail, LightsailIpv6Disable) => Some(SetIpAddressType)
    case (Lightsail, LightsailIpv6Enable) => Some(SetIpAddressType)
    case (Lightsail, LightsailStart) => Some(StartInstance)
    case (Lightsail, LightsailStop) => Some(StopInstance)
    case (Lightsail, LightsailDelete) => Some(DeleteInstance)
    case (AzureVm, AzureIpAllocate) => Some(PublicIpCreateOrUpdate)
    case (AzureVm, AzureIpAssociate) => Some(NetworkInterfaceCreateOrUpdate)
    case (AzureVm, AzureIpDelete) => Some(PublicIpDelete)
    case (AzureVm, AzureStart) => Some(VirtualMachineStart)
    case (AzureVm, AzureStop) => Some(VirtualMachineDeallocate)
    case (AzureVm, AzureDelete) => Some(VirtualMachineDelete)
    case (Linode, LinodeIpAllocate) => Some(InstanceIpAllocate)
    case (Linode, LinodeReboot) => Some(InstanceReboot)
    case (Linode, LinodeIpRelease) => Some(InstanceIpDelete)
    case (Linode, LinodeStart) => Some(InstanceBoot)
    case (Linode, LinodeStop) => Some(InstanceShutdown)
    case (Linode, LinodeDelete) => Some(InstanceDelete)
    case (Linode, LinodeSwapAllocate) => Some(InstanceCreate)
    case (Linode, LinodeIpSwap) => Some(IpAssign)
    case (Linode, LinodeSwapDelete) => Some(InstanceDelete)
    case _ => None
  }

  datatype RuleId =
    | PerOperation(operation: Operation)
    | StaticIpHour | StaticIpDay
    | ArmWrites | ArmDeletes | NetworkMutations
    | LinodeMutations

  datatype Kind = TokenBucket(refillPerSecond: real) | SlidingWindow(windowSeconds: int)

  datatype Rule = Rule(id: RuleId, global: bool, kind: Kind, capacity: int)

  predicate ValidPercent(percent: int) { 1 <= percent <= 100 }

  function Scaled(official: int, percent: int): int {
    var scaled := official * percent / 100;
    if scaled < 1 then 1 else scaled
  }

  /** One budget at a given utilisation percentage. */
  function RuleOf(id: RuleId, percent: int): Rule {
    match id
    case PerOperation(operation) =>
      var (capacity, refill) := OfficialBucket(operation);
      Rule(id, false, TokenBucket(refill * percent as real / 100.0), Scaled(capacity, percent))
    case StaticIpHour => Rule(id, true, SlidingWindow(3600), Scaled(50, percent))
    case StaticIpDay => Rule(id, true, SlidingWindow(86400), Scaled(500, percent))
    case ArmWrites => Rule(id, false, TokenBucket(10.0 * percent as real / 100.0), Scaled(200, percent))
    case ArmDeletes => Rule(id, false, TokenBucket(10.0 * percent as real / 100.0), Scaled(200, percent))
    case NetworkMutations => Rule(id, false, SlidingWindow(300), Scaled(1000, percent))
    case LinodeMutations => Rule(id, true, SlidingWindow(60), Scaled(1600, percent))
  }

  /** Official capacity and refill per second of the one-operation buckets. */
  function OfficialBucket(operation: Operation): (int, real) {
    match operation
    case StartInstances => (5, 2.0)
    case ModifyNetworkInterfaceAttribute => (100, 5.0)
    case AssignIpv6Addresses => (100, 5.0)
    case TerminateInstances => (100, 5.0)
    case StartInstance => (20, 10.0)
    case StopInstance => (20, 10.0)
    case DeleteInstance => (20, 1.0)
    case AllocateStaticIp => (1, 1.0)
    case DetachStaticIp => (1, 1.0)
    case AttachStaticIp => (1, 1.0)
    case ReleaseStaticIp => (1, 1.0)
    case SetIpAddressType => (1, 1.0)
    case _ => (50, 5.0)
  }

  /** The budgets an operation draws on, in the order the code checks them. */
  function RulesOf(service: Service, operation: Operation): seq<RuleId> {
    match service
    case Ec2 => [PerOperation(operation)]
    case Lightsail =>
      if operation.AllocateStaticIp? || operation.AttachStaticIp? || operation.DetachStaticIp?
          || operation.ReleaseStaticIp?
      then [PerOperation(operation), StaticIpHour, StaticIpDay]
      else [PerOperation(operation)]
    case AzureVm =>
      var delete := operation.PublicIpDelete? || operation.VirtualMachineDelete?;
      var machine := operation.VirtualMachineStart? || operation.VirtualMachineDeallocate?
          || operation.VirtualMachineDelete?;
      [if delete then ArmDeletes else ArmWrites] + (if machine then [] else [NetworkMutations])
    case Linode => [LinodeMutations]
  }

  predicate Supported(service: Service, action: Action) {
    OperationOf(service, action).Some?
  }

  function RulesForAction(service: Service, action: Action, percent: int): seq<Rule>
    requires Supported(service, action)
  {
    var ids := RulesOf(service, OperationOf(service, action).value);
    seq(|ids|, i requires 0 <= i < |ids| => RuleOf(ids[i], percent))
  }

  predicate WellFormed(rule: Rule) {
    && rule.capacity >= 1
    && match rule.kind
       case TokenBucket(refill) => refill > 0.0
       case SlidingWindow(window) => window > 0
  }

  /** At every legal percentage each budget admits something and drains, its shape does
      not depend on the percentage, and a higher percentage never shrinks it. */
  lemma RulesScale(id: RuleId, low: int, high: int)
    requires ValidPercent(low) && ValidPercent(high) && low <= high
    ensures WellFormed(RuleOf(id, low)) && RuleOf(id, low).id == id
    ensures RuleOf(id, low).global == RuleOf(id, high).global
    ensures RuleOf(id, low).kind.TokenBucket? == RuleOf(id, high).kind.TokenBucket?
    ensures RuleOf(id, low).kind.SlidingWindow? ==> RuleOf(id, low).kind == RuleOf(id, high).kind
    ensures RuleOf(id, low).capacity <= RuleOf(id, high).capacity
    ensures RuleOf(id, low).kind.TokenBucket? ==>
              RuleOf(id, low).kind.refillPerSecond <= RuleOf(id, high).kind.refillPerSecond
  {
    hide OfficialBucket, Scaled;
    if id.PerOperation? {
      var (capacity, refill) := OfficialBucket(id.operation);
      OfficialIsPositive(id.operation);
      ScaledGrows(capacity, low, high);
      RefillGrows(refill, low, high);
    } else {
      var official := match id case StaticIpHour => 50 case StaticIpDay => 500 case NetworkMutations => 1000
                               case LinodeMutations => 1600 case _ => 200;
      ScaledGrows(official, low, high);
      RefillGrows(10.0, low, high);
    }
  }

  /** A percentage of the official budget is exactly that: the whole part of the capacity, but at
      least one write, and the refill to the last digit. */
  lemma RulesAreProportional(id: RuleId, percent: int)
    requires ValidPercent(percent)
    ensures var official, rule := RuleOf(id, 100), RuleOf(id, percent);
            && rule.id == id && rule.global == official.global
            && (rule.capacity == 1 || 100 * rule.capacity <= official.capacity * percent)
            && official.capacity * percent < 100 * (rule.capacity + 1)
            && match official.kind
               case TokenBucket(refill) =>
                 rule.kind.TokenBucket? && 100.0 * rule.kind.refillPerSecond == refill * percent as real
               case SlidingWindow(_) => rule.kind == official.kind
  {
    hide OfficialBucket;
    if id.PerOperation? {
      OfficialIsPositive(id.operation);
    }
    var official := match id
      case PerOperation(operation) => OfficialBucket(operation).0
      case StaticIpHour => 50 case StaticIpDay => 500 case NetworkMutations => 1000 case LinodeMutations => 1600
      case _ => 200;
    ScaledIsWholePart(official, percent);
    ScaledIsWholePart(official, 100);
  }

  lemma ScaledIsWholePart(official: int, percent: int)
    requires official >= 1 && ValidPercent(percent)
    ensures var scaled := Scaled(official, percent);
            && (scaled == 1 || 100 * scaled <= official * percent) && official * percent < 100 * (scaled + 1)
            && (percent == 100 ==> scaled == official)
  {
  }

  lemma OfficialIsPositive(operation: Operation)
    ensures OfficialBucket(operation).0 >= 1 && OfficialBucket(operation).1 > 0.0
  {
  }

  lemma ScaledGrows(official: int, low: int, high: int)
    requires official >= 1 && low <= high
    ensures 1 <= Scaled(official, low) <= Scaled(official, high)
  {
    assert official * low <= official * high;
  }

  lemma RefillGrows(refill: real, low: int, high: int)
    requires refill > 0.0 && 1 <= low <= high
    ensures 0.0 < refill * low as real / 100.0 <= refill * high as real / 100.0
  {
    assert 0.0 < refill * low as real <= refill * high as real;
  }

  predicate DistinctIds(rules: seq<Rule>) {
    forall i, j :: 0 <= i < j < |rules| ==> rules[i].id != rules[j].id
  }

  /** No action is without a budget, no budget is charged twice for one write, and the two
      shared windows are exactly the static-IP family's. */
  lemma RulesForActionAreSound(service: Service, action: Action, percent: int)
    requires Supported(service, action) && ValidPercent(percent)
    ensures var rules := RulesForAction(service, action, percent);
            && rules != [] && DistinctIds(rules)
            && (forall i :: 0 <= i < |rules| ==> WellFormed(rules[i]) && rules[i] == RuleOf(rules[i].id, percent))
            && (IsStaticIp(action) ==>
                  && service == Lightsail && |rules| == 3 && rules[0].kind.TokenBucket?
                  && rules[1] == RuleOf(StaticIpHour, percent) && rules[2] == RuleOf(StaticIpDay, percent))
            && (!IsStaticIp(action) ==>
                  forall i :: 0 <= i < |rules| ==> rules[i].id != StaticIpHour && rules[i].id != StaticIpDay)
  {
    var ids := RulesOf(service, OperationOf(service, action).value);
    assert forall i, j :: 0 <= i < j < |ids| ==> ids[i] != ids[j];
    forall i | 0 <= i < |ids| ensures WellFormed(RuleOf(ids[i], percent)) && RuleOf(ids[i], percent).id == ids[i] {
      RulesScale(ids[i], percent, percent);
    }
  }
}
