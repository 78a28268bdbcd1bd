/** Cluster membership as a state machine: list changes enqueue events into a bounded
    queue that drops when full; one processor drains it and rebalances. */
module Membership {
  import opened Partitioning

  const QUEUE_CAPACITY := 64

  datatype EventKind = Join | Leave | Update

  datatype Event = Event(node: NodeInfo, kind: EventKind)

  /** Where the event processor stands. */
  datatype Processor =
    | NotStarted                               // memberlist created, first rebalance pending
    | Idle
    | Received(event: Event)                   // event taken from the queue
    | HasMembers(event: Event, members: seq<NodeInfo>)  // member list read, map not yet written
    | Notifying(event: Event)                  // map written, callback running

  datatype State = State(
    self: NodeInfo, list: seq<NodeInfo>, queue: seq<Event>, proc: Processor, owners: map<int, NodeInfo>)

  /** A list change and its non-blocking notification, made under memberlist's lock. */
  ghost predicate ListChanges(s: State, t: State, e: Event) {
    && UniqueNames(t.list)
    && t == s.(list := t.list, queue := if |s.queue| < QUEUE_CAPACITY then s.queue + [e] else s.queue)
  }

  ghost predicate Starts(n: nat, s: State, t: State) {
    s.proc.NotStarted? && t == s.(proc := Idle, owners := Assignment(n, [s.self]))
  }

  ghost predicate TakesEvent(s: State, t: State) {
    s.proc.Idle? && s.queue != [] && t == s.(proc := Received(s.queue[0]), queue := s.queue[1..])
  }

  ghost predicate ReadsMembers(s: State, t: State) {
    s.proc.Received? && t == s.(proc := HasMembers(s.proc.event, s.list))
  }

  ghost predicate WritesMap(n: nat, s: State, t: State) {
    s.proc.HasMembers? && t == s.(proc := Notifying(s.proc.event), owners := Assignment(n, s.proc.members))
  }

  ghost predicate Returns(s: State, t: State) {
    s.proc.Notifying? && t == s.(proc := Idle)
  }

  ghost predicate ProcessorStep(n: nat, s: State, t: State) {
    Starts(n, s, t) || TakesEvent(s, t) || ReadsMembers(s, t) || WritesMap(n, s, t) || Returns(s, t)
  }

  ghost predicate Next(n: nat, s: State, t: State) {
    (exists e :: ListChanges(s, t, e)) || ProcessorStep(n, s, t)
  }

  /** Creating the member list announces the local node before anyone listens. */
  ghost predicate Init(s: State) {
    s.proc.NotStarted? && s.list == [s.self] && s.queue == [Event(s.self, Join)] && s.owners == map[]
  }

  ghost predicate IsRun(n: nat, run: seq<State>) {
    && run != [] && Init(run[0])
    && forall i | 0 < i < |run| :: Next(n, run[i - 1], run[i])
  }

  /** With the queue empty, nothing the processor holds is out of date. */
  ghost predicate Inv(n: nat, s: State) {
    && UniqueNames(s.list)
    && |s.queue| <= QUEUE_CAPACITY
    && (s.queue == [] ==>
          match s.proc
          case NotStarted => false
          case Received(_) => true
          case HasMembers(_, ms) => ms == s.list
          case _ => s.owners == Assignment(n, s.list))
  }

  lemma StepKeepsInv(n: nat, s: State, t: State)
    requires Inv(n, s) && Next(n, s, t)
    ensures Inv(n, t)
  {
  }

  lemma {:induction false} RunKeepsInv(n: nat, run: seq<State>)
    requires IsRun(n, run)
    ensures Inv(n, run[|run| - 1])
  {
    if |run| > 1 {
      var before := run[..|run| - 1];
      assert forall i | 0 < i < |before| :: Next(n, before[i - 1], before[i]);
      RunKeepsInv(n, before);
      StepKeepsInv(n, run[|run| - 2], run[|run| - 1]);
    }
  }

  /** However many events were dropped: whenever the queue is empty and the started
      processor is idle, the map is the assignment of the current members. */
  lemma Convergence(n: nat, run: seq<State>)
    requires IsRun(n, run)
    ensures var s := run[|run| - 1]; s.queue == [] && s.proc.Idle? ==> s.owners == Assignment(n, s.list)
  {
    RunKeepsInv(n, run);
  }

  // ---------- getting there ----------

  function Work(s: State): nat {
    4 * |s.queue| + match s.proc
                    case NotStarted => 1
                    case Idle => 0
                    case Received(_) => 3
                    case HasMembers(_, _) => 2
                    case Notifying(_) => 1
  }

  /** Until it is idle on an empty queue the processor always has a next step, and every
      step it takes reduces the work left: quiet periods end converged. */
  lemma ProcessorProgress(n: nat, s: State)
    ensures (exists t :: ProcessorStep(n, s, t)) <==> !(s.queue == [] && s.proc.Idle?)
    ensures forall t :: ProcessorStep(n, s, t) ==> Work(t) < Work(s)
  {
    var t := match s.proc
      case NotStarted => s.(proc := Idle, owners := Assignment(n, [s.self]))
      case Idle => if s.queue == [] then s else s.(proc := Received(s.queue[0]), queue := s.queue[1..])
      case Received(e) => s.(proc := HasMembers(e, s.list))
      case HasMembers(e, ms) => s.(proc := Notifying(e), owners := Assignment(n, ms))
      case Notifying(_) => s.(proc := Idle);
    assert ProcessorStep(n, s, t) <==> !(s.queue == [] && s.proc.Idle?);
  }
}
