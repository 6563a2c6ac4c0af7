/** The agentd poller (pkg/agentd.go): one poll replaces the agent statuses and may promote
    a ready instance to healthy. */
module Agentd {
  import opened Protocol
  import opened Lifecycle

  const PROMOTION := "agents running"

  class AgentdPoller {
    const lifecycle: LifecycleManager

    constructor (lifecycle: LifecycleManager)
      ensures this.lifecycle == lifecycle
    {
      this.lifecycle := lifecycle;
    }

    /** `fetched` is what agentd answered; null stands for a failed request. */
    method Poll(fetched: array?<AgentStatus>)
      requires lifecycle.Valid()
      modifies lifecycle, lifecycle.vsockSend
      ensures lifecycle.Valid() && lifecycle.vsockSend == old(lifecycle.vsockSend)
      ensures fetched == null ==>
        && lifecycle.agents == old(lifecycle.agents) && lifecycle.count == old(lifecycle.count)
        && lifecycle.state == old(lifecycle.state) && lifecycle.message == old(lifecycle.message)
      ensures fetched != null ==> lifecycle.Agents() == old(fetched[..])
      ensures Promotes(if fetched == null then [] else old(fetched[..]), old(lifecycle.state)) ==>
        && lifecycle.state == Healthy && lifecycle.message == PROMOTION
        && (lifecycle.vsockSend != null ==>
              lifecycle.vsockSend.received
              == old(lifecycle.vsockSend.received) + [LifecyclePayload(Healthy, PROMOTION)])
      ensures !Promotes(if fetched == null then [] else old(fetched[..]), old(lifecycle.state)) ==>
        && lifecycle.state == old(lifecycle.state) && lifecycle.message == old(lifecycle.message)
        && (lifecycle.vsockSend != null ==> unchanged(lifecycle.vsockSend))
    {
      if fetched == null { return; }
      lifecycle.ReplaceAgentStatuses(fetched);

      var hasRunning := false;
      for i := 0 to fetched.Length
        invariant !hasRunning
        invariant forall j :: 0 <= j < i ==> !fetched[j].running
      {
        if fetched[i].running {
          hasRunning := true;
          assert fetched[..][i].running;
          break;
        }
      }
      if hasRunning && lifecycle.state == Ready {
        lifecycle.Transition(Healthy, PROMOTION);
      }
    }
  }

  /** When an uninterrupted poll promotes the instance. */
  predicate Promotes(agents: seq<AgentStatus>, state: LifecycleState)
  {
    HasRunning(agents) && state == Ready
  }
}
