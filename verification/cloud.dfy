/**
 * The remote resource-management service as the program sees it: the calls
 * it issues, the outcome each call yields, and what the program records of
 * them. Every remote call of sample.go is one `Call`; its outcome is fixed in
 * advance by `reply` (or `listReply` for the listing of resource groups), so a
 * run of the program is determined by these outcomes.
 */
module Cloud {
  import opened Wrappers
  import opened Status

  /** The remote operations sample.go issues, with the names they act on. */
  datatype Call =
    | ListGroups
    | PutGroup(group: string)
    | PutVirtualNetwork(group: string, network: string)
    | PutSecurityGroup(group: string, securityGroup: string)
    | GetSecurityGroup(group: string, securityGroup: string)
    | PutSubnet(group: string, network: string, subnet: string)
    | PutRule(group: string, securityGroup: string, rule: string)
    | DeleteGroup(group: string)

  /**
   * The outcome of listing the resource groups: the error, or else the
   * status code and the names of the groups.
   */
  datatype ListReply = ListReply(statusCode: int, names: seq<string>, err: Option<string>)

  /** The calls whose outcome goes through `executeWithStatus`. */
  predicate ThroughExecutor(c: Call) {
    !(c.ListGroups? || c.PutGroup? || c.GetSecurityGroup?)
  }

  /** The text `createResourceGroup` writes after creating the group. */
  function GroupReport(err: Option<string>): Report {
    if err.None? then Success else Failure(ErrorLine(err))
  }

  /** What is written about one call once it has returned. */
  function ReportsOf(c: Call, reply: Call -> Reply): seq<Report> {
    if ThroughExecutor(c) then [ExecutorReport(reply(c))]
    else if c.PutGroup? then [GroupReport(reply(c).err)]
    else []
  }

  /** What is written about a sequence of calls, in order. */
  function Narration(calls: seq<Call>, reply: Call -> Reply): seq<Report> {
    if calls == [] then []
    else Narration(calls[..|calls| - 1], reply) + ReportsOf(calls[|calls| - 1], reply)
  }

  lemma NarrationAppend(calls: seq<Call>, c: Call, reply: Call -> Reply)
    ensures Narration(calls + [c], reply) == Narration(calls, reply) + ReportsOf(c, reply)
  {
    assert (calls + [c])[..|calls|] == calls;
  }

  /**
   * The service together with the program's record of it: the calls issued
   * so far, in order, and the SUCCESS/FAILED reports written about them.
   */
  class Environment {
    const listReply: ListReply
    const reply: Call -> Reply
    var calls: seq<Call>
    var reports: seq<Report>

    /**
     * Every report was written about a call, in the order of the calls, and
     * every reply the executor inspects carries a response when it carries
     * no error.
     */
    ghost predicate Valid()
      reads this
    {
      && reports == Narration(calls, reply)
      && forall c :: ThroughExecutor(c) ==> Inspectable(reply(c))
    }

    constructor (listReply: ListReply, reply: Call -> Reply)
      requires forall c :: ThroughExecutor(c) ==> Inspectable(reply(c))
      ensures this.listReply == listReply && this.reply == reply
      ensures calls == [] && reports == []
      ensures Valid()
    {
      this.listReply := listReply;
      this.reply := reply;
      calls := [];
      reports := [];
    }

    /** Issues one call and waits for its outcome. */
    method Invoke(c: Call) returns (response: Response, err: Option<string>)
      modifies this
      ensures calls == old(calls) + [c] && reports == old(reports)
      ensures Reply(response, err) == reply(c)
    {
      calls := calls + [c];
      response, err := reply(c).response, reply(c).err;
    }

    /** Lists the resource groups of the subscription. */
    method List() returns (r: ListReply)
      requires Valid()
      modifies this
      ensures Valid()
      ensures calls == old(calls) + [ListGroups] && reports == old(reports)
      ensures r == listReply
    {
      NarrationAppend(calls, ListGroups, reply);
      calls := calls + [ListGroups];
      r := listReply;
    }

    /** Writes one report. */
    method Write(report: Report)
      modifies this
      ensures reports == old(reports) + [report] && calls == old(calls)
    {
      reports := reports + [report];
    }
  }
}
