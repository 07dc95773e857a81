/**
 Allocations (pkg/scheduler/objects/allocation.go): a request or a placed allocation. The methods of
 the source run under the allocation's lock, so each of them is one atomic step.
 */
module Allocations {
  import opened Resources

  type Priority = p: int | -0x8000_0000 <= p <= 0x7FFF_FFFF

  class Allocation {
    const key: string
    const appID: string
    const taskGroup: string
    const placeholder: bool
    const createTime: int
    const priority: Priority
    const requiredNode: string
    const foreign: bool

    var isAllocated: bool
    var resource: Amounts
    var nodeID: string
    var released: bool
    var release: Allocation?
    var preempted: bool
    var preemptionTriggered: bool

    constructor (key: string, appID: string, taskGroup: string, placeholder: bool, createTime: int, priority: Priority,
                 requiredNode: string, foreign: bool, resource: Amounts, nodeID: string)
      ensures this.key == key && this.appID == appID && this.taskGroup == taskGroup
      ensures this.placeholder == placeholder && this.createTime == createTime && this.priority == priority
      ensures this.requiredNode == requiredNode && this.foreign == foreign
      ensures this.resource == resource && this.nodeID == nodeID && isAllocated == (nodeID != "")
      ensures !released && release == null && !preempted && !preemptionTriggered
    {
      this.key, this.appID, this.taskGroup, this.placeholder := key, appID, taskGroup, placeholder;
      this.createTime, this.priority, this.requiredNode, this.foreign := createTime, priority, requiredNode, foreign;
      this.resource, this.nodeID, isAllocated := resource, nodeID, nodeID != "";
      released, release, preempted, preemptionTriggered := false, null, false, false;
    }

    /** Refused for an allocation that is marked for preemption. */
    method SetReleased(r: bool) returns (ok: bool)
      modifies this`released
      ensures ok == (!r || !preempted)
      ensures released == if ok then r else old(released)
    {
      if r && preempted { return false; }
      released := r;
      return true;
    }

    /** Refused for an allocation that is released. */
    method MarkPreempted() returns (ok: bool)
      modifies this`preempted
      ensures ok == !released
      ensures preempted == (ok || old(preempted))
    {
      if released { return false; }
      preempted := true;
      return true;
    }

    method MarkUnPreempted()
      modifies this`preempted
      ensures !preempted
    {
      preempted := false;
    }

    method Allocate() returns (ok: bool)
      modifies this`isAllocated
      ensures ok == !old(isAllocated) && isAllocated
    {
      if isAllocated { return false; }
      isAllocated := true;
      return true;
    }

    method Deallocate() returns (ok: bool)
      modifies this`isAllocated
      ensures ok == old(isAllocated) && !isAllocated
    {
      if !isAllocated { return false; }
      isAllocated := false;
      return true;
    }

    /** Lower priority, or the same priority and not created earlier. */
    predicate LessThan(other: Allocation) {
      if priority == other.priority then createTime >= other.createTime else priority < other.priority
    }
  }

  ghost function ResourcesOf(s: seq<Allocation>): (r: seq<Amounts>)
    reads s
    ensures |r| == |s| && forall i | 0 <= i < |s| :: r[i] == s[i].resource
  {
    seq(|s|, i requires 0 <= i < |s| reads s => s[i].resource)
  }

  lemma ResourcesOneMore(s: seq<Allocation>, a: Allocation)
    ensures ResourcesOf(s + [a]) == ResourcesOf(s) + [a.resource]
  {
  }
}
