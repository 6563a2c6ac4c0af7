/** Lifecycle state and agent statuses (pkg/lifecycle.go). The agent list is a Go slice: an
    array that is updated in place, with the number of its elements in use. */
module Lifecycle {
  import opened Basics
  import opened Protocol

  /** The host's end of the notification callback. */
  class HostLink {
    var received: seq<LifecyclePayload>

    constructor ()
      ensures received == []
    {
      received := [];
    }

    method Send(payload: LifecyclePayload)
      modifies this
      ensures received == old(received) + [payload]
    {
      received := received + [payload];
    }
  }

  // ----- The agent list as a sequence -------------------------------------------------

  /** Index of the first entry called `name`, or the length of the list. */
  function IndexOf(agents: seq<AgentStatus>, name: string): (i: nat)
    ensures i <= |agents|
    ensures i < |agents| ==> agents[i].name == name
    ensures forall j :: 0 <= j < i ==> agents[j].name != name
  {
    if agents == [] || agents[0].name == name then 0 else 1 + IndexOf(agents[1..], name)
  }

  function Upsert(agents: seq<AgentStatus>, status: AgentStatus): seq<AgentStatus>
  {
    var i := IndexOf(agents, status.name);
    if i < |agents| then agents[i := status] else agents + [status]
  }

  // ----- The manager ------------------------------------------------------------------

  class LifecycleManager {
    var state: LifecycleState
    var message: string
    var agents: array<AgentStatus>
    var count: nat
    var vsockSend: HostLink?

    ghost predicate Valid()
      reads this
    {
      count <= agents.Length
    }

    ghost function Agents(): seq<AgentStatus>
      reads this, agents
      requires Valid()
    {
      agents[..count]
    }

    constructor ()
      ensures Valid() && fresh(agents)
      ensures state == Booting && message == "" && Agents() == [] && vsockSend == null
    {
      state, message, vsockSend := Booting, "", null;
      agents, count := new AgentStatus[0], 0;
    }

    method SetVsockSender(send: HostLink?)
      modifies this`vsockSend
      ensures vsockSend == send
    {
      vsockSend := send;
    }

    method Transition(state: LifecycleState, message: string)
      modifies this`state, this`message, vsockSend
      ensures this.state == state && this.message == message
      ensures vsockSend != null ==>
        vsockSend.received == old(vsockSend.received) + [LifecyclePayload(state, message)]
    {
      this.state := state;
      this.message := message;
      var send := vsockSend;
      if send != null {
        send.Send(LifecyclePayload(state, message));
      }
    }

    method UpdateAgentStatus(status: AgentStatus)
      requires Valid()
      modifies this`agents, this`count, agents
      ensures Valid() && (agents == old(agents) || fresh(agents))
      ensures Agents() == Upsert(old(Agents()), status)
    {
      for i := 0 to count
        invariant forall j :: 0 <= j < i ==> agents[j].name != status.name
        invariant Agents() == old(Agents()) && agents == old(agents) && count == old(count)
      {
        if agents[i].name == status.name {
          agents[i] := status;
          return;
        }
      }
      if count == agents.Length {
        var larger := new AgentStatus[2 * count + 1];
        forall k | 0 <= k < count {
          larger[k] := agents[k];
        }
        agents := larger;
      }
      agents[count] := status;
      count := count + 1;
      assert Agents() == old(Agents()) + [status];
    }

    method ReplaceAgentStatuses(list: array<AgentStatus>)
      modifies this`agents, this`count
      ensures Valid() && fresh(agents)
      ensures Agents() == old(list[..])
    {
      var copied := new AgentStatus[list.Length];
      forall k | 0 <= k < list.Length {
        copied[k] := list[k];
      }
      agents, count := copied, list.Length;
    }

    /** The report holds its own copy of the list. */
    method Health() returns (reported: LifecycleState, copied: array<AgentStatus>)
      requires Valid()
      ensures reported == state && fresh(copied) && copied[..] == Agents()
    {
      copied := new AgentStatus[count];
      forall k | 0 <= k < count {
        copied[k] := agents[k];
      }
      reported := state;
    }
  }

  // ----- Histories of the agent list --------------------------------------------------

  datatype AgentOp = Replace(list: seq<AgentStatus>) | Update(status: AgentStatus)

  function ApplyOp(agents: seq<AgentStatus>, op: AgentOp): seq<AgentStatus>
  {
    match op
    case Replace(list) => list
    case Update(status) => Upsert(agents, status)
  }

  function AgentsAfter(agents: seq<AgentStatus>, ops: seq<AgentOp>): seq<AgentStatus>
    decreases |ops|
  {
    if ops == [] then agents else ApplyOp(AgentsAfter(agents, Init(ops)), Last(ops))
  }

  /** A report taken before any number of updates is the same after them, although they write
      into the arrays of the manager: no array is shared. */
  method SnapshotSurvives(lm: LifecycleManager, ops: seq<AgentOp>) returns (snapshot: array<AgentStatus>)
    requires lm.Valid()
    modifies lm, lm.agents
    ensures snapshot[..] == old(lm.Agents())
    ensures lm.Valid() && lm.Agents() == AgentsAfter(old(lm.Agents()), ops)
  {
    var _, taken := lm.Health();
    snapshot := taken;
    assert ops[..0] == [];
    for i := 0 to |ops|
      invariant lm.Valid() && (lm.agents == old(lm.agents) || fresh(lm.agents))
      invariant snapshot != lm.agents
      invariant snapshot[..] == old(lm.Agents())
      invariant lm.Agents() == AgentsAfter(old(lm.Agents()), ops[..i])
    {
      assert Init(ops[..i + 1]) == ops[..i] && Last(ops[..i + 1]) == ops[i];
      match ops[i]
      case Replace(list) =>
        var fetched := new AgentStatus[|list|](k requires 0 <= k < |list| => list[k]);
        assert fetched[..] == list;
        lm.ReplaceAgentStatuses(fetched);
      case Update(status) =>
        lm.UpdateAgentStatus(status);
    }
    assert ops[..|ops|] == ops;
  }

  /** An insertion-ordered map: the names in order of arrival and the latest status of each. */
  datatype OrderedMap = OrderedMap(order: seq<string>, values: map<string, AgentStatus>)

  function Put(m: OrderedMap, status: AgentStatus): OrderedMap
  {
    OrderedMap(
      if status.name in m.order then m.order else m.order + [status.name],
      m.values[status.name := status])
  }

  function Names(agents: seq<AgentStatus>): (names: seq<string>)
    ensures |names| == |agents|
    ensures forall i :: 0 <= i < |agents| ==> names[i] == agents[i].name
  {
    seq(|agents|, i requires 0 <= i < |agents| => agents[i].name)
  }

  function Values(agents: seq<AgentStatus>): map<string, AgentStatus>
    decreases |agents|
  {
    if agents == [] then map[] else Values(Init(agents))[Last(agents).name := Last(agents)]
  }

  function AsMap(agents: seq<AgentStatus>): OrderedMap
  {
    OrderedMap(Names(agents), Values(agents))
  }

  ghost predicate DistinctNames(agents: seq<AgentStatus>)
  {
    forall i, j :: 0 <= i < j < |agents| ==> agents[i].name != agents[j].name
  }

  lemma {:induction false} ValuesAt(agents: seq<AgentStatus>)
    requires DistinctNames(agents)
    ensures forall i :: 0 <= i < |agents| ==>
      agents[i].name in Values(agents) && Values(agents)[agents[i].name] == agents[i]
    ensures forall name :: name in Values(agents) ==> name in Names(agents)
    decreases |agents|
  {
    if agents != [] {
      ValuesAt(Init(agents));
      assert Names(agents) == Names(Init(agents)) + [Last(agents).name];
    }
  }

  /** For distinct names, membership and values in one statement. */
  lemma ValueIff(agents: seq<AgentStatus>, name: string)
    requires DistinctNames(agents)
    ensures name in Values(agents) <==> exists i :: 0 <= i < |agents| && agents[i].name == name
    ensures forall i :: 0 <= i < |agents| && agents[i].name == name ==> Values(agents)[name] == agents[i]
  {
    ValuesAt(agents);
    if name in Values(agents) {
      var i :| 0 <= i < |agents| && Names(agents)[i] == name;
      assert agents[i].name == name;
    }
  }

  lemma UpsertNames(agents: seq<AgentStatus>, status: AgentStatus)
    requires DistinctNames(agents)
    ensures DistinctNames(Upsert(agents, status))
    ensures Names(Upsert(agents, status))
      == if status.name in Names(agents) then Names(agents) else Names(agents) + [status.name]
  {
    var i := IndexOf(agents, status.name);
    if i < |agents| {
      assert Names(agents)[i] == status.name;
      assert Names(Upsert(agents, status)) == Names(agents);
    }
  }

  lemma UpsertValue(agents: seq<AgentStatus>, status: AgentStatus, name: string)
    requires DistinctNames(agents) && DistinctNames(Upsert(agents, status))
    ensures var after, expected := Values(Upsert(agents, status)), Values(agents)[status.name := status];
      (name in after <==> name in expected) && (name in expected ==> after[name] == expected[name])
  {
    var after := Upsert(agents, status);
    var i := IndexOf(agents, status.name);
    ValueIff(agents, name);
    ValueIff(after, name);
    assert after[i] == status;
    if name != status.name {
      assert forall k :: 0 <= k < |agents| && k != i ==> after[k] == agents[k];
      if k :| 0 <= k < |agents| && agents[k].name == name {
        assert after[k].name == name;
      }
    }
  }

  /** One update is one insertion into the ordered map. */
  lemma UpsertIsPut(agents: seq<AgentStatus>, status: AgentStatus)
    requires DistinctNames(agents)
    ensures DistinctNames(Upsert(agents, status))
    ensures AsMap(Upsert(agents, status)) == Put(AsMap(agents), status)
  {
    UpsertNames(agents, status);
    var after, expected := Values(Upsert(agents, status)), Values(agents)[status.name := status];
    forall name
      ensures (name in after <==> name in expected) && (name in expected ==> after[name] == expected[name])
    {
      UpsertValue(agents, status, name);
    }
    assert after == expected;
  }

  function MapAfter(m: OrderedMap, ops: seq<AgentOp>): OrderedMap
    decreases |ops|
  {
    if ops == [] then m
    else match Last(ops)
      case Replace(list) => AsMap(list)
      case Update(status) => Put(MapAfter(m, Init(ops)), status)
  }

  /** Every history of replacements (by lists of distinct names) and updates keeps the names
      distinct and refines an insertion-ordered map in which the last write wins. */
  lemma {:induction false} AgentsRefineMap(agents: seq<AgentStatus>, ops: seq<AgentOp>)
    requires DistinctNames(agents)
    requires forall i :: 0 <= i < |ops| && ops[i].Replace? ==> DistinctNames(ops[i].list)
    ensures DistinctNames(AgentsAfter(agents, ops))
    ensures AsMap(AgentsAfter(agents, ops)) == MapAfter(AsMap(agents), ops)
    decreases |ops|
  {
    if ops != [] {
      assert Last(ops) == ops[|ops| - 1];
      AgentsRefineMap(agents, Init(ops));
      if Last(ops).Update? {
        UpsertIsPut(AgentsAfter(agents, Init(ops)), Last(ops).status);
      }
    }
  }
}
