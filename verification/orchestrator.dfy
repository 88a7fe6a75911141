/**
 * The provisioning sequence of `main`, sample.go:71-273, with
 * `createResourceGroup` (335-358), `deleteResourceGroup` (360-366),
 * `createVirtualNetwork` (368-389) and `createNetworkSecurityGroup`
 * (321-333).
 *
 * `main` creates a uniquely named resource group and, inside it, a virtual
 * network, two network security groups, two subnets and four security
 * rules, stopping at the first failure it checks; once the group exists it
 * is deleted again whatever happens next. The run is specified
 * declaratively: `Plan` lists the calls after the group is created with the
 * exit status a failure of each one causes (none when the program does not
 * look at the outcome), and `Execute` stops at the first failing step that
 * has one.
 */
module Orchestrator {
  import opened Wrappers
  import opened Status
  import opened Cloud
  import opened Executor
  import opened Allocator
  import opened Setup

  // The exit statuses, in the order of their declaration.
  const ExitSuccess := 0
  const ExitAuthenticationFailure := 1
  const ExitResourceGroupCreationFailure := 2
  const ExitVirtualNetworkCreationFailure := 3
  const ExitNetworkSecurityGroupCreationFailure := 4
  const ExitSecurityRuleCreationFailure := 5
  const ExitSubnetCreationFailure := 6

  const NetworkName := "sampleVirtualNetwork"
  const FrontendSecurityGroup := "frontend"
  const BackendSecurityGroup := "backend"
  const FrontendSubnet := "frontendSubnet"
  const BackendSubnet := "backendSubnet"
  const SshRule := "ALLOW-SSH"
  const HttpRule := "ALLOW-HTTP"
  const SqlRule := "ALLOW-SQL"
  const DenyOutRule := "DENY-OUT"

  /** One call of the sequence and the exit status its error causes, if the program checks it. */
  datatype Step = Step(call: Call, failureExit: Option<int>)

  /** The virtual network, sample.go:100-105. */
  function VirtualNetworkSteps(g: string): seq<Step> {
    [Step(PutVirtualNetwork(g, NetworkName), Some(ExitVirtualNetworkCreationFailure))]
  }

  /**
   * One security group, sample.go:111-121: created without looking at the
   * outcome, then read back, which is checked.
   */
  function SecurityGroupSteps(g: string, name: string): seq<Step> {
    [ Step(PutSecurityGroup(g, name), None),
      Step(GetSecurityGroup(g, name), Some(ExitNetworkSecurityGroupCreationFailure)) ]
  }

  /** The virtual network and the two security groups, sample.go:100-121. */
  function NetworkSteps(g: string): seq<Step> {
    VirtualNetworkSteps(g) + SecurityGroupSteps(g, FrontendSecurityGroup) + SecurityGroupSteps(g, BackendSecurityGroup)
  }

  /** The two subnets, sample.go:123-162. */
  function SubnetSteps(g: string): seq<Step> {
    [ Step(PutSubnet(g, NetworkName, FrontendSubnet), Some(ExitSubnetCreationFailure)),
      Step(PutSubnet(g, NetworkName, BackendSubnet), Some(ExitSubnetCreationFailure)) ]
  }

  /**
   * The rules of the front-end group, sample.go:164-222: the SSH rule is
   * checked; the check after the HTTP rule reads the SSH rule's error
   * again, so the HTTP rule's own outcome is not looked at.
   */
  function FrontendRuleSteps(g: string): seq<Step> {
    [ Step(PutRule(g, FrontendSecurityGroup, SshRule), Some(ExitSecurityRuleCreationFailure)),
      Step(PutRule(g, FrontendSecurityGroup, HttpRule), None) ]
  }

  /** The rules of the back-end group, sample.go:224-262, whose outcomes are discarded. */
  function BackendRuleSteps(g: string): seq<Step> {
    [ Step(PutRule(g, BackendSecurityGroup, SqlRule), None),
      Step(PutRule(g, BackendSecurityGroup, DenyOutRule), None) ]
  }

  /** The four rules, sample.go:164-262. */
  function RuleSteps(g: string): seq<Step> {
    FrontendRuleSteps(g) + BackendRuleSteps(g)
  }

  /** The calls `main` makes inside the resource group `g`, in program order. */
  function Plan(g: string): seq<Step> {
    NetworkSteps(g) + SubnetSteps(g) + RuleSteps(g)
  }

  /** A step that ends the run: its error is checked and present. */
  predicate Fails(s: Step, reply: Call -> Reply) {
    s.failureExit.Some? && reply(s.call).err.Some?
  }

  /** The exit status of a run and the calls it made, in order. */
  datatype Run = Run(exit: int, calls: seq<Call>)

  function CallsOf(plan: seq<Step>): (calls: seq<Call>)
    ensures |calls| == |plan| && forall i :: 0 <= i < |plan| ==> calls[i] == plan[i].call
  {
    if plan == [] then [] else [plan[0].call] + CallsOf(plan[1..])
  }

  /** Runs the steps in order and stops after the first one that fails. */
  function Execute(plan: seq<Step>, reply: Call -> Reply): Run {
    if plan == [] then Run(ExitSuccess, [])
    else if Fails(plan[0], reply) then Run(plan[0].failureExit.value, [plan[0].call])
    else
      var rest := Execute(plan[1..], reply);
      Run(rest.exit, [plan[0].call] + rest.calls)
  }

  /**
   * `createResourceGroup`: the group name, or the error that stopped it.
   * `chosen` is what `getUniqueResourceGroupName` made of the listing
   * (`AllocateName`); the specification of the run takes it as given, and
   * `RunMain` ties it to the listing.
   */
  function GroupOutcome(chosen: NameReply, reply: Call -> Reply): NameReply {
    if chosen.err.Some? then chosen
    else if reply(PutGroup(chosen.name)).err.Some? then NameReply("", reply(PutGroup(chosen.name)).err)
    else chosen
  }

  /** The calls `createResourceGroup` makes: the listing, then the creation once a name is chosen. */
  function GroupCalls(chosen: NameReply): seq<Call> {
    if chosen.err.Some? then [ListGroups] else [ListGroups, PutGroup(chosen.name)]
  }

  /**
   * The whole of `main`: help first, then the token, then the group, the
   * sequence inside it, and the deletion of the group once it exists.
   */
  function ExpectedRun(help: bool, hasToken: bool, chosen: NameReply, reply: Call -> Reply): Run {
    if help then Run(ExitSuccess, [])
    else if !hasToken then Run(ExitAuthenticationFailure, [])
    else
      var group := GroupOutcome(chosen, reply);
      if group.err.Some? then Run(ExitResourceGroupCreationFailure, GroupCalls(chosen))
      else
        var inner := Execute(Plan(group.name), reply);
        Run(inner.exit, GroupCalls(chosen) + inner.calls + [DeleteGroup(group.name)])
  }

  // ---------------------------------------------------------------------------
  // Properties of the specification

  /**
   * The position of the first step that fails, or the length of the plan
   * when none does: every step before it goes through.
   */
  function FirstFailure(plan: seq<Step>, reply: Call -> Reply): (k: nat)
    ensures k <= |plan|
    ensures forall j :: 0 <= j < k ==> !Fails(plan[j], reply)
    ensures k < |plan| ==> Fails(plan[k], reply)
  {
    if plan == [] then 0
    else if Fails(plan[0], reply) then 0
    else FirstFailure(plan[1..], reply) + 1
  }

  /**
   * The run stops at the first step that fails: the calls are those of the
   * steps up to and including it, and the exit status is the one that step
   * causes; when no step fails, every call is made and the exit status is
   * success.
   */
  lemma {:induction false} ExecuteStopsAtFirstFailure(plan: seq<Step>, reply: Call -> Reply)
    ensures var k := FirstFailure(plan, reply);
      Execute(plan, reply) ==
        if k < |plan| then Run(plan[k].failureExit.value, CallsOf(plan[..k + 1]))
        else Run(ExitSuccess, CallsOf(plan))
  {
    if plan != [] && !Fails(plan[0], reply) {
      var tail := plan[1..];
      ExecuteStopsAtFirstFailure(tail, reply);
      var k := FirstFailure(tail, reply);
      assert FirstFailure(plan, reply) == k + 1;
      var rest := Execute(tail, reply);
      assert Execute(plan, reply) == Run(rest.exit, [plan[0].call] + rest.calls);
      if k < |tail| {
        var done := plan[..k + 2];
        assert done[0] == plan[0] && done[1..] == tail[..k + 1];
        assert CallsOf(done) == [plan[0].call] + CallsOf(tail[..k + 1]);
      } else {
        assert CallsOf(plan) == [plan[0].call] + CallsOf(tail);
      }
    } else if plan != [] {
      assert plan[..1][1..] == [];
    }
  }

  /**
   * The first n steps of the plan have been made after the calls in
   * `start`, and none of them failed.
   */
  ghost predicate Reached(calls: seq<Call>, start: seq<Call>, plan: seq<Step>, reply: Call -> Reply, n: nat) {
    && n <= |plan|
    && calls == start + CallsOf(plan[..n])
    && forall j :: 0 <= j < n ==> !Fails(plan[j], reply)
  }

  lemma Advance(calls: seq<Call>, start: seq<Call>, plan: seq<Step>, reply: Call -> Reply, n: nat)
    requires Reached(calls, start, plan, reply, n) && n < |plan| && !Fails(plan[n], reply)
    ensures Reached(calls + [plan[n].call], start, plan, reply, n + 1)
  {
    CallsOfPrefix(plan, n);
  }

  lemma CallsOfPrefix(plan: seq<Step>, n: nat)
    requires n < |plan|
    ensures CallsOf(plan[..n + 1]) == CallsOf(plan[..n]) + [plan[n].call]
  {
    assert plan[..n + 1][..n] == plan[..n];
  }

  /** The first step to fail is the one that fails after n that do not. */
  lemma FirstFailureAt(plan: seq<Step>, reply: Call -> Reply, n: nat)
    requires n < |plan| && Fails(plan[n], reply)
    requires forall j :: 0 <= j < n ==> !Fails(plan[j], reply)
    ensures FirstFailure(plan, reply) == n
  {
    var k := FirstFailure(plan, reply);
    assert k <= n;
    assert k >= n;
  }

  /** A run whose step n is the first to fail. */
  lemma Stop(calls: seq<Call>, start: seq<Call>, plan: seq<Step>, reply: Call -> Reply, n: nat)
    requires Reached(calls, start, plan, reply, n) && n < |plan| && Fails(plan[n], reply)
    ensures calls + [plan[n].call] == start + Execute(plan, reply).calls
    ensures plan[n].failureExit.value == Execute(plan, reply).exit
  {
    FirstFailureAt(plan, reply, n);
    ExecuteStopsAtFirstFailure(plan, reply);
    CallsOfPrefix(plan, n);
  }

  /** A run in which no step fails. */
  lemma Finish(calls: seq<Call>, start: seq<Call>, plan: seq<Step>, reply: Call -> Reply)
    requires Reached(calls, start, plan, reply, |plan|)
    ensures calls == start + Execute(plan, reply).calls
    ensures Execute(plan, reply).exit == ExitSuccess
  {
    ExecuteStopsAtFirstFailure(plan, reply);
    assert plan[..|plan|] == plan;
  }

  /** Every checked step of the plan ends the run with a failure status. */
  predicate FailuresAreVisible(plan: seq<Step>) {
    forall i :: 0 <= i < |plan| && plan[i].failureExit.Some? ==> plan[i].failureExit.value != ExitSuccess
  }

  /**
   * Running two plans one after the other: the second runs exactly when
   * the first ends with success.
   */
  lemma {:induction false} ExecuteThen(a: seq<Step>, b: seq<Step>, reply: Call -> Reply)
    requires FailuresAreVisible(a)
    ensures var r := Execute(a, reply);
      Execute(a + b, reply) ==
        if r.exit != ExitSuccess then r else Run(Execute(b, reply).exit, r.calls + Execute(b, reply).calls)
  {
    if a == [] {
      assert a + b == b;
    } else {
      assert (a + b)[0] == a[0] && (a + b)[1..] == a[1..] + b;
      if !Fails(a[0], reply) {
        assert FailuresAreVisible(a[1..]) by {
          forall i | 0 <= i < |a[1..]| && a[1..][i].failureExit.Some?
            ensures a[1..][i].failureExit.value != ExitSuccess
          {
            assert a[1..][i] == a[i + 1];
          }
        }
        ExecuteThen(a[1..], b, reply);
      }
    }
  }

  /** Two replies that agree on which checked steps fail. */
  predicate AgreeOnChecked(plan: seq<Step>, r1: Call -> Reply, r2: Call -> Reply) {
    forall i :: 0 <= i < |plan| ==> (Fails(plan[i], r1) <==> Fails(plan[i], r2))
  }

  /**
   * Only whether a checked step fails decides the run: response status
   * codes and the outcomes of steps whose result is discarded change
   * neither the exit status nor the calls made.
   */
  lemma {:induction false} ExecuteDependsOnlyOnChecked(plan: seq<Step>, r1: Call -> Reply, r2: Call -> Reply)
    requires AgreeOnChecked(plan, r1, r2)
    ensures Execute(plan, r1) == Execute(plan, r2)
  {
    if plan != [] {
      assert Fails(plan[0], r1) <==> Fails(plan[0], r2);
      assert AgreeOnChecked(plan[1..], r1, r2) by {
        forall i | 0 <= i < |plan[1..]| ensures Fails(plan[1..][i], r1) <==> Fails(plan[1..][i], r2) {
          assert plan[1..][i] == plan[i + 1];
        }
      }
      ExecuteDependsOnlyOnChecked(plan[1..], r1, r2);
    }
  }

  /** The calls whose errors `main` and the functions it calls act on. */
  predicate Checked(c: Call) {
    || c.PutGroup?
    || c.PutVirtualNetwork?
    || c.GetSecurityGroup?
    || c.PutSubnet?
    || (c.PutRule? && c.rule == SshRule)
  }

  /**
   * The errors of the calls `main` checks decide the whole run: the
   * outcome of creating the security groups (whose error is overwritten by
   * that of reading them back), of the HTTP, SQL and outbound rules (whose
   * results are discarded), of deleting the group, and every status code,
   * change neither the exit status nor the calls made.
   */
  lemma OnlyCheckedErrorsMatter(help: bool, hasToken: bool, chosen: NameReply, r1: Call -> Reply, r2: Call -> Reply)
    requires forall c :: Checked(c) ==> (r1(c).err.Some? <==> r2(c).err.Some?)
    ensures ExpectedRun(help, hasToken, chosen, r1) == ExpectedRun(help, hasToken, chosen, r2)
  {
    if chosen.err.None? {
      assert Checked(PutGroup(chosen.name));
      var plan := Plan(chosen.name);
      forall i | 0 <= i < |plan|
        ensures Fails(plan[i], r1) <==> Fails(plan[i], r2)
      {
        assert plan[i].failureExit.Some? ==> Checked(plan[i].call);
      }
      ExecuteDependsOnlyOnChecked(plan, r1, r2);
    }
  }

  /** Asking for help ends the run at once, successfully and without any call. */
  lemma HelpMakesNoCalls(hasToken: bool, chosen: NameReply, reply: Call -> Reply)
    ensures ExpectedRun(true, hasToken, chosen, reply) == Run(ExitSuccess, [])
  {
  }

  /** Without a token the run ends with the authentication status and without any call. */
  lemma NoTokenMakesNoCalls(chosen: NameReply, reply: Call -> Reply)
    ensures ExpectedRun(false, false, chosen, reply) == Run(ExitAuthenticationFailure, [])
  {
  }

  /** The calls of a run are the calls of the first steps of its plan, in order. */
  lemma ExecutedCallsArePlanned(plan: seq<Step>, reply: Call -> Reply)
    ensures var calls := Execute(plan, reply).calls;
      |calls| <= |plan| && forall i :: 0 <= i < |calls| ==> calls[i] == plan[i].call
  {
    ExecuteStopsAtFirstFailure(plan, reply);
  }

  /** Nothing inside the group deletes anything. */
  lemma PlanNeverDeletes(g: string)
    ensures forall i :: 0 <= i < |Plan(g)| ==> !Plan(g)[i].call.DeleteGroup?
  {
  }

  /**
   * When the resource group cannot be named or created, the run ends with
   * the group-creation status and nothing is deleted; otherwise the created
   * group is deleted exactly once, by the last call of the run, and no
   * call of the run deletes anything before it.
   */
  lemma DeletesExactlyTheCreatedGroup(chosen: NameReply, reply: Call -> Reply)
    ensures var run := ExpectedRun(false, true, chosen, reply);
      var group := GroupOutcome(chosen, reply);
      && (group.err.Some? ==> run.exit == ExitResourceGroupCreationFailure && forall i :: 0 <= i < |run.calls| ==> !run.calls[i].DeleteGroup?)
      && (group.err.None? ==>
            && |run.calls| >= 3
            && run.calls[..2] == [ListGroups, PutGroup(group.name)]
            && run.calls[|run.calls| - 1] == DeleteGroup(group.name)
            && forall i :: 0 <= i < |run.calls| - 1 ==> !run.calls[i].DeleteGroup?)
  {
    var group := GroupOutcome(chosen, reply);
    if group.err.None? {
      RunInGroupNeverDeletes(group.name, reply);
      BracketedByGroup(group.name, Execute(Plan(group.name), reply).calls);
    }
  }

  /** The calls made inside the group: at least one, and none a deletion. */
  lemma RunInGroupNeverDeletes(g: string, reply: Call -> Reply)
    ensures var calls := Execute(Plan(g), reply).calls;
      |calls| > 0 && forall i :: 0 <= i < |calls| ==> !calls[i].DeleteGroup?
  {
    ExecutedCallsArePlanned(Plan(g), reply);
    PlanNeverDeletes(g);
    ExecuteStopsAtFirstFailure(Plan(g), reply);
  }

  /** Calls without a deletion, between the group's creation and its deletion. */
  lemma BracketedByGroup(name: string, inner: seq<Call>)
    requires |inner| > 0 && forall i :: 0 <= i < |inner| ==> !inner[i].DeleteGroup?
    ensures var calls := [ListGroups, PutGroup(name)] + inner + [DeleteGroup(name)];
      && |calls| >= 3
      && calls[..2] == [ListGroups, PutGroup(name)]
      && calls[|calls| - 1] == DeleteGroup(name)
      && forall i :: 0 <= i < |calls| - 1 ==> !calls[i].DeleteGroup?
  {
    var calls := [ListGroups, PutGroup(name)] + inner + [DeleteGroup(name)];
    forall i | 0 <= i < |calls| - 1 ensures !calls[i].DeleteGroup? {
      if i >= 2 {
        assert calls[i] == inner[i - 2];
      }
    }
  }

  /**
   * The exit status is success exactly when help was asked for, or when
   * the group was created and no checked step failed; it is always one of
   * the declared statuses.
   */
  lemma ExitStatusMeaning(help: bool, hasToken: bool, chosen: NameReply, reply: Call -> Reply)
    ensures var run := ExpectedRun(help, hasToken, chosen, reply);
      var group := GroupOutcome(chosen, reply);
      && ExitSuccess <= run.exit <= ExitSubnetCreationFailure
      && (run.exit == ExitSuccess <==>
            help || (hasToken && group.err.None? && FirstFailure(Plan(group.name), reply) == |Plan(group.name)|))
  {
    var group := GroupOutcome(chosen, reply);
    if !help && hasToken && group.err.None? {
      var plan := Plan(group.name);
      ExecuteStopsAtFirstFailure(plan, reply);
      PlanExits(group.name);
    }
  }

  /** Every checked step of the plan ends the run with a failure status. */
  lemma PlanExits(g: string)
    ensures forall i :: 0 <= i < |Plan(g)| && Plan(g)[i].failureExit.Some? ==>
      ExitVirtualNetworkCreationFailure <= Plan(g)[i].failureExit.value <= ExitSubnetCreationFailure
  {
  }

  /** A failing virtual network is the first thing checked inside the group: exit 3, and the group is still deleted. */
  lemma VirtualNetworkFailure(chosen: NameReply, reply: Call -> Reply)
    requires GroupOutcome(chosen, reply).err.None?
    requires reply(PutVirtualNetwork(GroupOutcome(chosen, reply).name, NetworkName)).err.Some?
    ensures var g := GroupOutcome(chosen, reply).name;
      ExpectedRun(false, true, chosen, reply)
        == Run(ExitVirtualNetworkCreationFailure, [ListGroups, PutGroup(g), PutVirtualNetwork(g, NetworkName), DeleteGroup(g)])
  {
  }

  /** When nothing checked fails, every call of the plan is made in order and the group is deleted last. */
  lemma CompleteRun(chosen: NameReply, reply: Call -> Reply)
    requires GroupOutcome(chosen, reply).err.None?
    requires forall i :: 0 <= i < |Plan(GroupOutcome(chosen, reply).name)| ==> !Fails(Plan(GroupOutcome(chosen, reply).name)[i], reply)
    ensures var g := GroupOutcome(chosen, reply).name;
      ExpectedRun(false, true, chosen, reply)
        == Run(ExitSuccess, [ListGroups, PutGroup(g)] + CallsOf(Plan(g)) + [DeleteGroup(g)])
  {
    ExecuteStopsAtFirstFailure(Plan(GroupOutcome(chosen, reply).name), reply);
  }

  /**
   * A missing or malformed setting leaves no token, so the run ends with
   * the authentication status before any call.
   */
  lemma InvalidSettingsStopTheRun(read: Credentials, parse: string -> Option<string>,
                                  authenticate: Credentials -> Authentication, chosen: NameReply, reply: Call -> Reply, f: Field)
    requires !Acceptable(Value(read, f), f, parse)
    ensures ExpectedRun(false, TokenObtained(false, read, parse, authenticate), chosen, reply) == Run(ExitAuthenticationFailure, [])
  {
    if TokenObtained(false, read, parse, authenticate) {
      TokenNeedsValidSettings(false, read, parse, authenticate);
      assert false;
    }
  }

  // ---------------------------------------------------------------------------
  // The program

  /**
   * `createResourceGroup`: names the group from the listing, creates it and
   * writes SUCCESS, or FAILED and the error.
   */
  method CreateResourceGroup(env: Environment, ghost chosen: NameReply) returns (name: string, err: Option<string>)
    requires env.Valid() && chosen == AllocateName(env.listReply)
    modifies env
    ensures env.Valid()
    ensures env.calls == old(env.calls) + GroupCalls(chosen)
    ensures NameReply(name, err) == GroupOutcome(chosen, env.reply)
  {
    var groups := env.List();
    name, err := GetUniqueResourceGroupName(groups);
    if err.Some? {
      return;
    }
    NarrationAppend(env.calls, PutGroup(name), env.reply);
    var _, createErr := env.Invoke(PutGroup(name));
    if createErr.Some? {
      env.Write(GroupReport(createErr));
      return "", createErr;
    }
    env.Write(GroupReport(createErr));
  }

  /** `deleteResourceGroup` */
  method DeleteResourceGroup(env: Environment, name: string) returns (err: Option<string>)
    requires env.Valid()
    modifies env
    ensures env.Valid()
    ensures env.calls == old(env.calls) + [DeleteGroup(name)]
    ensures err == env.reply(DeleteGroup(name)).err
  {
    var _, e := ExecuteWithStatus(env, DeleteGroup(name));
    return e;
  }

  /** `createVirtualNetwork`: the name of the network and the error of creating it. */
  method CreateVirtualNetwork(env: Environment, group: string) returns (network: string, err: Option<string>)
    requires env.Valid()
    modifies env
    ensures env.Valid()
    ensures env.calls == old(env.calls) + [PutVirtualNetwork(group, NetworkName)]
    ensures network == NetworkName && err == env.reply(PutVirtualNetwork(group, NetworkName)).err
  {
    var _, e := ExecuteWithStatus(env, PutVirtualNetwork(group, NetworkName));
    return NetworkName, e;
  }

  /**
   * `createNetworkSecurityGroup`: creates the group, discards the error of
   * doing so, reads the group back and returns the error of reading it.
   */
  method CreateNetworkSecurityGroup(env: Environment, group: string, name: string) returns (securityGroup: string, err: Option<string>)
    requires env.Valid()
    modifies env
    ensures env.Valid()
    ensures env.calls == old(env.calls) + [PutSecurityGroup(group, name), GetSecurityGroup(group, name)]
    ensures securityGroup == name && err == env.reply(GetSecurityGroup(group, name)).err
  {
    var _, _ := ExecuteWithStatus(env, PutSecurityGroup(group, name));
    NarrationAppend(env.calls, GetSecurityGroup(group, name), env.reply);
    var _, e := env.Invoke(GetSecurityGroup(group, name));
    return name, e;
  }

  /** One rule through the executor. */
  method CreateSecurityRule(env: Environment, group: string, securityGroup: string, rule: string) returns (err: Option<string>)
    requires env.Valid()
    modifies env
    ensures env.Valid()
    ensures env.calls == old(env.calls) + [PutRule(group, securityGroup, rule)]
    ensures err == env.reply(PutRule(group, securityGroup, rule)).err
  {
    var _, e := ExecuteWithStatus(env, PutRule(group, securityGroup, rule));
    return e;
  }

  /** One subnet of the virtual network through the executor. */
  method CreateSubnet(env: Environment, group: string, network: string, subnet: string) returns (err: Option<string>)
    requires env.Valid()
    modifies env
    ensures env.Valid()
    ensures env.calls == old(env.calls) + [PutSubnet(group, network, subnet)]
    ensures err == env.reply(PutSubnet(group, network, subnet)).err
  {
    var _, e := ExecuteWithStatus(env, PutSubnet(group, network, subnet));
    return e;
  }

  /**
   * The virtual network and the two security groups, returning at the
   * first failure `main` checks.
   */
  method CreateNetworkAndSecurityGroups(env: Environment, group: string)
    returns (vNetName: string, frontEnd: string, backEnd: string, exitStatus: int)
    requires env.Valid()
    modifies env
    ensures env.Valid()
    ensures env.calls == old(env.calls) + Execute(NetworkSteps(group), env.reply).calls
    ensures exitStatus == Execute(NetworkSteps(group), env.reply).exit
    ensures vNetName == NetworkName && frontEnd == FrontendSecurityGroup && backEnd == BackendSecurityGroup
  {
    ghost var start, reply := env.calls, env.reply;
    ghost var a, b, c := VirtualNetworkSteps(group), SecurityGroupSteps(group, FrontendSecurityGroup), SecurityGroupSteps(group, BackendSecurityGroup);
    assert NetworkSteps(group) == a + (b + c);
    assert FailuresAreVisible(a) && FailuresAreVisible(b);
    ExecuteThen(a, b + c, reply);
    ExecuteThen(b, c, reply);
    ghost var ra, rb, rc := Execute(a, reply), Execute(b, reply), Execute(c, reply);
    frontEnd, backEnd := FrontendSecurityGroup, BackendSecurityGroup;
    var err;
    vNetName, err := CreateVirtualNetwork(env, group);
    if err.Some? {
      return vNetName, frontEnd, backEnd, ExitVirtualNetworkCreationFailure;
    }
    assert env.calls == start + ra.calls;
    frontEnd, exitStatus := CreateCheckedSecurityGroup(env, group, FrontendSecurityGroup);
    AppendAssociates(start, ra.calls, rb.calls);
    if exitStatus != ExitSuccess {
      return;
    }
    backEnd, exitStatus := CreateCheckedSecurityGroup(env, group, BackendSecurityGroup);
    AppendAssociates(start + ra.calls, rb.calls, rc.calls);
    AppendAssociates(start, ra.calls, rb.calls + rc.calls);
  }

  /** `createNetworkSecurityGroup` and the check `main` makes of its error. */
  method CreateCheckedSecurityGroup(env: Environment, group: string, name: string) returns (securityGroup: string, exitStatus: int)
    requires env.Valid()
    modifies env
    ensures env.Valid()
    ensures env.calls == old(env.calls) + Execute(SecurityGroupSteps(group, name), env.reply).calls
    ensures exitStatus == Execute(SecurityGroupSteps(group, name), env.reply).exit
    ensures securityGroup == name
  {
    ghost var plan, start, reply := SecurityGroupSteps(group, name), env.calls, env.reply;
    assert Reached(start, start, plan, reply, 0);
    var err;
    securityGroup, err := CreateNetworkSecurityGroup(env, group, name);
    Advance(start, start, plan, reply, 0);
    if err.Some? {
      Stop(start + [plan[0].call], start, plan, reply, 1);
      return securityGroup, ExitNetworkSecurityGroupCreationFailure;
    }
    Advance(start + [plan[0].call], start, plan, reply, 1);
    Finish(env.calls, start, plan, reply);
    return securityGroup, ExitSuccess;
  }

  /** The two subnets of the virtual network, returning at the first failure. */
  method CreateSubnets(env: Environment, group: string, vNetName: string) returns (exitStatus: int)
    requires env.Valid() && vNetName == NetworkName
    modifies env
    ensures env.Valid()
    ensures env.calls == old(env.calls) + Execute(SubnetSteps(group), env.reply).calls
    ensures exitStatus == Execute(SubnetSteps(group), env.reply).exit
  {
    ghost var plan, start, reply := SubnetSteps(group), env.calls, env.reply;
    ghost var before := env.calls;
    assert Reached(before, start, plan, reply, 0);
    var err := CreateSubnet(env, group, vNetName, FrontendSubnet);
    if err.Some? {
      Stop(before, start, plan, reply, 0);
      return ExitSubnetCreationFailure;
    }
    Advance(before, start, plan, reply, 0);

    before := env.calls;
    err := CreateSubnet(env, group, vNetName, BackendSubnet);
    if err.Some? {
      Stop(before, start, plan, reply, 1);
      return ExitSubnetCreationFailure;
    }
    Advance(before, start, plan, reply, 1);
    Finish(env.calls, start, plan, reply);
    return ExitSuccess;
  }

  /** The four rules, returning when the SSH rule fails. */
  method CreateSecurityRules(env: Environment, group: string, frontEnd: string, backEnd: string) returns (exitStatus: int)
    requires env.Valid() && frontEnd == FrontendSecurityGroup && backEnd == BackendSecurityGroup
    modifies env
    ensures env.Valid()
    ensures env.calls == old(env.calls) + Execute(RuleSteps(group), env.reply).calls
    ensures exitStatus == Execute(RuleSteps(group), env.reply).exit
  {
    ghost var start, reply := env.calls, env.reply;
    ghost var a, b := FrontendRuleSteps(group), BackendRuleSteps(group);
    assert FailuresAreVisible(a);
    ExecuteThen(a, b, reply);
    exitStatus := CreateFrontendRules(env, group, frontEnd);
    if exitStatus != ExitSuccess {
      return;
    }
    CreateBackendRules(env, group, backEnd);
    AppendAssociates(start, Execute(a, reply).calls, Execute(b, reply).calls);
  }

  /**
   * The SSH and HTTP rules. The check after the HTTP rule looks at the
   * error of the SSH rule, which is nil by then, so it never fires.
   */
  method CreateFrontendRules(env: Environment, group: string, frontEnd: string) returns (exitStatus: int)
    requires env.Valid() && frontEnd == FrontendSecurityGroup
    modifies env
    ensures env.Valid()
    ensures env.calls == old(env.calls) + Execute(FrontendRuleSteps(group), env.reply).calls
    ensures exitStatus == Execute(FrontendRuleSteps(group), env.reply).exit
  {
    ghost var plan, start, reply := FrontendRuleSteps(group), env.calls, env.reply;
    assert Reached(start, start, plan, reply, 0);
    var err := CreateSecurityRule(env, group, frontEnd, SshRule);
    if err.Some? {
      Stop(start, start, plan, reply, 0);
      return ExitSecurityRuleCreationFailure;
    }
    Advance(start, start, plan, reply, 0);

    ghost var before := env.calls;
    var _ := CreateSecurityRule(env, group, frontEnd, HttpRule);
    Advance(before, start, plan, reply, 1);
    if err.Some? {
      return ExitSecurityRuleCreationFailure;
    }
    Finish(env.calls, start, plan, reply);
    return ExitSuccess;
  }

  /** The SQL and outbound rules, whose results are not looked at. */
  method CreateBackendRules(env: Environment, group: string, backEnd: string)
    requires env.Valid() && backEnd == BackendSecurityGroup
    modifies env
    ensures env.Valid()
    ensures env.calls == old(env.calls) + Execute(BackendRuleSteps(group), env.reply).calls
    ensures Execute(BackendRuleSteps(group), env.reply).exit == ExitSuccess
  {
    ghost var plan, start, reply := BackendRuleSteps(group), env.calls, env.reply;
    assert Reached(start, start, plan, reply, 0);
    var _ := CreateSecurityRule(env, group, backEnd, SqlRule);
    Advance(start, start, plan, reply, 0);
    ghost var before := env.calls;
    var _ := CreateSecurityRule(env, group, backEnd, DenyOutRule);
    Advance(before, start, plan, reply, 1);
    Finish(env.calls, start, plan, reply);
  }

  /**
   * The body of `main` once the resource group exists, sample.go:100-262:
   * the network and security groups, the subnets and the rules, returning
   * at the first failure it checks.
   */
  method Provision(env: Environment, group: string) returns (exitStatus: int)
    requires env.Valid()
    modifies env
    ensures env.Valid()
    ensures env.calls == old(env.calls) + Execute(Plan(group), env.reply).calls
    ensures exitStatus == Execute(Plan(group), env.reply).exit
  {
    ghost var start, reply := env.calls, env.reply;
    ghost var a, b, c := NetworkSteps(group), SubnetSteps(group), RuleSteps(group);
    assert Plan(group) == a + (b + c);
    assert FailuresAreVisible(a) && FailuresAreVisible(b);
    ExecuteThen(a, b + c, reply);
    ExecuteThen(b, c, reply);
    ghost var ra, rb, rc := Execute(a, reply), Execute(b, reply), Execute(c, reply);
    var vNetName, frontEnd, backEnd;
    vNetName, frontEnd, backEnd, exitStatus := CreateNetworkAndSecurityGroups(env, group);
    if exitStatus != ExitSuccess {
      return;
    }
    assert env.calls == start + ra.calls;
    exitStatus := CreateSubnets(env, group, vNetName);
    AppendAssociates(start, ra.calls, rb.calls);
    if exitStatus != ExitSuccess {
      return;
    }
    exitStatus := CreateSecurityRules(env, group, frontEnd, backEnd);
    AppendAssociates(start + ra.calls, rb.calls, rc.calls);
    AppendAssociates(start, ra.calls, rb.calls + rc.calls);
  }

  /**
   * Regrouping a trace. Proved apart so that the methods above need not
   * prove the sequence equality themselves.
   */
  lemma AppendAssociates(s: seq<Call>, x: seq<Call>, y: seq<Call>)
    ensures (s + x) + y == s + (x + y)
  {
  }

  /**
   * `main`: returns the exit status. The deletion the program defers once
   * the group exists runs before the status is returned, on every path.
   */
  method RunMain(settings: Settings, env: Environment) returns (exitStatus: int)
    requires env.Valid() && env.calls == []
    modifies env
    ensures env.Valid()
    ensures Run(exitStatus, env.calls) == ExpectedRun(settings.help, settings.hasToken, AllocateName(env.listReply), env.reply)
  {
    if settings.help {
      HelpMakesNoCalls(settings.hasToken, AllocateName(env.listReply), env.reply);
      return ExitSuccess;
    }
    if !settings.hasToken {
      NoTokenMakesNoCalls(AllocateName(env.listReply), env.reply);
      return ExitAuthenticationFailure;
    }
    exitStatus := RunWithToken(env, AllocateName(env.listReply));
  }

  /** `main` past the help flag and the token check. */
  method RunWithToken(env: Environment, ghost chosen: NameReply) returns (exitStatus: int)
    requires env.Valid() && env.calls == [] && chosen == AllocateName(env.listReply)
    modifies env
    ensures env.Valid()
    ensures Run(exitStatus, env.calls) == ExpectedRun(false, true, chosen, env.reply)
  {
    var groupName, err := CreateResourceGroup(env, chosen);
    if err.Some? {
      GroupFailure(chosen, env.reply);
      return ExitResourceGroupCreationFailure;
    }
    exitStatus := RunInGroup(env, chosen, groupName);
  }

  /** `main` once `createResourceGroup` has created the group `group`. */
  method RunInGroup(env: Environment, ghost chosen: NameReply, group: string) returns (exitStatus: int)
    requires env.Valid() && env.calls == GroupCalls(chosen)
    requires GroupOutcome(chosen, env.reply) == NameReply(group, None)
    modifies env
    ensures env.Valid()
    ensures Run(exitStatus, env.calls) == ExpectedRun(false, true, chosen, env.reply)
  {
    exitStatus := ProvisionThenDelete(env, group);
    AfterGroup(chosen, env.reply, group, Execute(Plan(group), env.reply));
  }

  /** The body of `main` once the group exists, followed by the deferred deletion. */
  method ProvisionThenDelete(env: Environment, group: string) returns (exitStatus: int)
    requires env.Valid()
    modifies env
    ensures env.Valid()
    ensures env.calls == old(env.calls) + Execute(Plan(group), env.reply).calls + [DeleteGroup(group)]
    ensures exitStatus == Execute(Plan(group), env.reply).exit
  {
    exitStatus := Provision(env, group);
    var _ := DeleteResourceGroup(env, group);
  }

  /** How `main` ends when the resource group could not be created. */
  lemma GroupFailure(chosen: NameReply, reply: Call -> Reply)
    requires GroupOutcome(chosen, reply).err.Some?
    ensures ExpectedRun(false, true, chosen, reply) == Run(ExitResourceGroupCreationFailure, GroupCalls(chosen))
  {
  }

  /** How `main` ends once the resource group has been created. */
  lemma AfterGroup(chosen: NameReply, reply: Call -> Reply, group: string, inner: Run)
    requires GroupOutcome(chosen, reply) == NameReply(group, None)
    requires inner == Execute(Plan(group), reply)
    ensures ExpectedRun(false, true, chosen, reply) == Run(inner.exit, GroupCalls(chosen) + inner.calls + [DeleteGroup(group)])
  {
  }

  /**
   * The program: `init` on fresh globals, then `main`. Returns what `init`
   * writes to standard error and the exit status.
   */
  method Program(env: Environment, getenv: string -> string, helpFlag: bool,
                 parse: string -> Option<string>, authenticate: Credentials -> Authentication)
    returns (diagnostics: seq<Diagnostic>, exitStatus: int)
    requires env.Valid() && env.calls == []
    modifies env
    ensures env.Valid()
    ensures var read := Credentials(getenv(TenantIDVar), getenv(SubscriptionIDVar), getenv(ClientIDVar), getenv(ClientSecretVar));
      && diagnostics == InitDiagnostics(helpFlag, read, parse, authenticate)
      && Run(exitStatus, env.calls) == ExpectedRun(helpFlag, TokenObtained(helpFlag, read, parse, authenticate), AllocateName(env.listReply), env.reply)
  {
    var settings := new Settings();
    diagnostics := settings.Init(getenv, helpFlag, parse, authenticate);
    exitStatus := RunMain(settings, env);
  }
}
