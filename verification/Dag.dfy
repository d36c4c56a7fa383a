/**
  Executing a DAG of functions.  The scheduler sends every function its
  schedule and triggers the sources.  An executor runs a function once its
  schedule and as many triggers as the schedule lists have arrived, in any
  order, and passes the result on in the triggers of the successors.
 */
module Dags {

  type Name = string

  /** A serialized value. */
  type Value = string

  const BEGIN: Name := "BEGIN"

  datatype Edge = Edge(source: Name, sink: Name)

  datatype Dag = Dag(functions: set<Name>, connections: seq<Edge>)

  // ------------------------------------------------------------- the scheduler

  /** The sources of the edges into `f`, one per edge. */
  function Predecessors(edges: seq<Edge>, f: Name): seq<Name> {
    if edges == [] then []
    else Predecessors(edges[..|edges| - 1], f) +
         if edges[|edges| - 1].sink == f then [edges[|edges| - 1].source] else []
  }

  method GetDagPredecessors(dag: Dag, f: Name) returns (result: seq<Name>)
    ensures result == Predecessors(dag.connections, f)
  {
    result := [];
    for i := 0 to |dag.connections|
      invariant result == Predecessors(dag.connections[..i], f)
    {
      assert dag.connections[..i + 1][..i] == dag.connections[..i];
      if dag.connections[i].sink == f {
        result := result + [dag.connections[i].source];
      }
    }
    assert dag.connections[..|dag.connections|] == dag.connections;
  }

  lemma {:induction false} PredecessorsAreEdges(edges: seq<Edge>, f: Name)
    ensures forall u :: u in Predecessors(edges, f) <==> Edge(u, f) in edges
  {
    if edges != [] {
      PredecessorsAreEdges(edges[..|edges| - 1], f);
      assert edges == edges[..|edges| - 1] + [edges[|edges| - 1]];
    }
  }

  /** The predecessors come in the order of the edges. */
  lemma {:induction false} PredecessorsInOrder(a: seq<Edge>, b: seq<Edge>, f: Name)
    ensures Predecessors(a + b, f) == Predecessors(a, f) + Predecessors(b, f)
  {
    if b == [] {
      assert a + b == a;
    } else {
      var init, last := b[..|b| - 1], b[|b| - 1];
      PredecessorsInOrder(a, init, f);
      assert b == init + [last] && a + b == (a + init) + [last];
      PredecessorsSnoc(init, last, f);
      PredecessorsSnoc(a + init, last, f);
    }
  }

  lemma {:induction false} PredecessorsSnoc(edges: seq<Edge>, e: Edge, f: Name)
    ensures Predecessors(edges + [e], f) == Predecessors(edges, f) + if e.sink == f then [e.source] else []
  {
    assert (edges + [e])[..|edges + [e]| - 1] == edges;
  }

  lemma {:induction false} PredecessorsOfEdge(e: Edge, f: Name)
    ensures Predecessors([e], f) == if e.sink == f then [e.source] else []
  {
    assert Predecessors([], f) == [];
  }

  /** The triggers that a function waits for. */
  function Triggers(dag: Dag, f: Name): (ts: seq<Name>)
    ensures ts != []
  {
    var ps := Predecessors(dag.connections, f);
    if ps == [] then [BEGIN] else ps
  }

  function TriggerSet(dag: Dag, f: Name): set<Name> { set t | t in Triggers(dag, f) }

  predicate IsSource(dag: Dag, f: Name) {
    f in dag.functions && Predecessors(dag.connections, f) == []
  }

  function Sinks(edges: seq<Edge>): set<Name> { set e | e in edges :: e.sink }

  /** The functions without incoming edges; fails when an edge leads to an unknown function. */
  method FindDagSource(dag: Dag) returns (ok: bool, sources: set<Name>)
    ensures ok <==> Sinks(dag.connections) <= dag.functions
    ensures ok ==> sources == set f | f in dag.functions && IsSource(dag, f)
  {
    var sinks: set<Name> := {};
    for i := 0 to |dag.connections|
      invariant sinks == set j | 0 <= j < i :: dag.connections[j].sink
    {
      sinks := sinks + {dag.connections[i].sink};
    }
    assert sinks == Sinks(dag.connections);
    sources := dag.functions;
    var todo := sinks;
    while todo != {}
      invariant todo <= sinks && sinks - todo <= dag.functions && sources == dag.functions - (sinks - todo)
      decreases todo
    {
      var f :| f in todo;
      if f !in sources {
        return false, {};
      }
      sources := sources - {f};
      todo := todo - {f};
    }
    ok := true;
    forall f ensures f in sinks <==> Predecessors(dag.connections, f) != [] {
      SinksHavePredecessors(dag, f);
    }
  }

  lemma {:induction false} SinksHavePredecessors(dag: Dag, f: Name)
    ensures f in Sinks(dag.connections) <==> Predecessors(dag.connections, f) != []
  {
    PredecessorsAreEdges(dag.connections, f);
    if f in Sinks(dag.connections) {
      var e :| e in dag.connections && e.sink == f;
      assert Edge(e.source, f) in dag.connections;
    }
    if Predecessors(dag.connections, f) != [] {
      var u := Predecessors(dag.connections, f)[0];
      assert Edge(u, f) in dag.connections;
    }
  }

  // -------------------------------------------------------------- the executor

  /** What an executor holds for one function of one call. */
  datatype Slot = Slot(queued: bool, received: map<Name, seq<Value>>)

  const IDLE := Slot(false, map[])

  /** The schedule and as many triggers as it lists are here. */
  predicate Ready(s: Slot, waitsFor: nat) {
    s.queued && |s.received| == waitsFor
  }

  function OnSchedule(s: Slot): Slot { s.(queued := true) }

  function OnTrigger(s: Slot, source: Name, args: seq<Value>): Slot {
    s.(received := s.received[source := args])
  }

  /** A schedule and the identifier of the call it belongs to. */
  type Id = (string, Name)

  /** The executor's tables.  `fired` logs the executions with the triggers they used. */
  class Executor {
    var queue: map<Id, seq<Name>>
    var received: map<Id, map<Name, seq<Value>>>
    var fired: seq<(Id, map<Name, seq<Value>>)>

    constructor ()
      ensures queue == map[] && received == map[] && fired == []
    {
      queue, received, fired := map[], map[], [];
    }

    /** The tables' entry for one function of one call. */
    ghost function SlotOf(c: Id): Slot
      reads this
    {
      Slot(c in queue, if c in received then received[c] else map[])
    }

    /** The slot after its function ran, or as it was. */
    ghost predicate Settled(c: Id, slot: Slot, waitsFor: nat, before: seq<(Id, map<Name, seq<Value>>)>)
      reads this
    {
      if Ready(slot, waitsFor) then SlotOf(c) == IDLE && fired == before + [(c, slot.received)]
      else SlotOf(c) == slot && fired == before
    }

    /** The queued function runs and its entries are dropped. */
    method Run(c: Id)
      requires c in queue && c in received
      modifies this
      ensures SlotOf(c) == IDLE && fired == old(fired) + [(c, old(received)[c])]
      ensures queue == old(queue) - {c} && received == old(received) - {c}
    {
      fired := fired + [(c, received[c])];
      received := received - {c};
      queue := queue - {c};
    }

    method HandleSchedule(c: Id, triggers: seq<Name>)
      requires triggers != []
      modifies this
      ensures Settled(c, OnSchedule(old(SlotOf(c))), |triggers|, old(fired))
      ensures c in queue ==> queue[c] == triggers
      ensures queue - {c} == old(queue) - {c} && received - {c} == old(received) - {c}
    {
      queue := queue[c := triggers];
      if c in received && |received[c]| == |triggers| {
        Run(c);
      }
    }

    /** The trigger is stored under its source. */
    method Receive(c: Id, source: Name, args: seq<Value>)
      modifies `received
      ensures received == old(received)[c := OnTrigger(old(SlotOf(c)), source, args).received]
    {
      if c !in received {
        received := received[c := map[]];
      }
      received := received[c := received[c][source := args]];
    }

    method HandleTrigger(c: Id, source: Name, args: seq<Value>)
      modifies this
      ensures Settled(c, OnTrigger(old(SlotOf(c)), source, args), if c in old(queue) then |old(queue)[c]| else 0, old(fired))
      ensures c in queue ==> c in old(queue) && queue[c] == old(queue)[c]
      ensures queue - {c} == old(queue) - {c} && received - {c} == old(received) - {c}
    {
      Receive(c, source, args);
      if c in queue && |received[c]| == |queue[c]| {
        Run(c);
      }
    }
  }

  datatype Message = Schedule(target: Name) | Trigger(source: Name, target: Name, args: seq<Value>)

  /** What `held` has for a name; the trigger of the scheduler carries nothing. */
  function ValueOf(held: map<Name, seq<Value>>, u: Name): seq<Value> {
    if u in held then held[u] else []
  }

  /** The arguments in the order of the triggers. */
  function Inputs(held: map<Name, seq<Value>>, ts: seq<Name>): seq<Value> {
    if ts == [] then [] else Inputs(held, ts[..|ts| - 1]) + ValueOf(held, ts[|ts| - 1])
  }

  lemma {:induction false} InputsInOrder(held: map<Name, seq<Value>>, a: seq<Name>, b: seq<Name>)
    ensures Inputs(held, a + b) == Inputs(held, a) + Inputs(held, b)
  {
    if b == [] {
      assert a + b == a;
    } else {
      var init, last := b[..|b| - 1], b[|b| - 1];
      InputsInOrder(held, a, init);
      assert b == init + [last] && a + b == (a + init) + [last];
      InputsSnoc(Inputs(held, a), held, init, last);
      InputsSnoc([], held, a + init, last);
    }
  }

  lemma {:induction false} InputsOfTrigger(held: map<Name, seq<Value>>, t: Name)
    ensures Inputs(held, [t]) == ValueOf(held, t)
  {
    assert Inputs(held, []) == [];
  }

  /**
    The list consists of the arguments given by the client up to the first cut, and between the cuts
    `i` and `i + 1` of what trigger `i` carries.
   */
  ghost predicate CutAt(given: seq<Value>, held: map<Name, seq<Value>>, ts: seq<Name>, args: seq<Value>, cuts: seq<nat>) {
    && |cuts| == |ts| + 1 && cuts[|ts|] == |args|
    && (forall i, j | 0 <= i <= j < |cuts| :: cuts[i] <= cuts[j])
    && args[..cuts[0]] == given
    && forall i | 0 <= i < |ts| :: args[cuts[i]..cuts[i + 1]] == ValueOf(held, ts[i])
  }

  /** The arguments of an execution, position by position. */
  ghost predicate Arguments(given: seq<Value>, held: map<Name, seq<Value>>, ts: seq<Name>, args: seq<Value>) {
    exists cuts :: CutAt(given, held, ts, args, cuts)
  }

  lemma CutsSnoc(given: seq<Value>, held: map<Name, seq<Value>>, ts: seq<Name>, args: seq<Value>, cuts: seq<nat>, t: Name)
    requires CutAt(given, held, ts, args, cuts)
    ensures CutAt(given, held, ts + [t], args + ValueOf(held, t), cuts + [|args| + |ValueOf(held, t)|])
  {
    var ts', args', cuts' := ts + [t], args + ValueOf(held, t), cuts + [|args| + |ValueOf(held, t)|];
    assert args'[..cuts'[0]] == args[..cuts[0]];
    forall i | 0 <= i < |ts'|
      ensures args'[cuts'[i]..cuts'[i + 1]] == ValueOf(held, ts'[i])
    {
      if i < |ts| {
        assert args'[cuts[i]..cuts[i + 1]] == args[cuts[i]..cuts[i + 1]];
      }
    }
  }

  lemma {:induction false} InputsAreArguments(given: seq<Value>, held: map<Name, seq<Value>>, ts: seq<Name>)
    ensures Arguments(given, held, ts, given + Inputs(held, ts))
  {
    if ts == [] {
      assert CutAt(given, held, ts, given, [|given|]);
      assert given + Inputs(held, ts) == given;
    } else {
      var rest, t := ts[..|ts| - 1], ts[|ts| - 1];
      assert ts == rest + [t];
      InputsAreArguments(given, held, rest);
      ArgumentsSnoc(given, held, rest, given + Inputs(held, rest), t);
      InputsSnoc(given, held, rest, t);
    }
  }

  lemma {:induction false} InputsSnoc(given: seq<Value>, held: map<Name, seq<Value>>, ts: seq<Name>, t: Name)
    ensures given + Inputs(held, ts + [t]) == (given + Inputs(held, ts)) + ValueOf(held, t)
    ensures Inputs(held, ts + [t]) == Inputs(held, ts) + ValueOf(held, t)
  {
    assert (ts + [t])[..|ts + [t]| - 1] == ts;
  }

  lemma ArgumentsSnoc(given: seq<Value>, held: map<Name, seq<Value>>, ts: seq<Name>, args: seq<Value>, t: Name)
    requires Arguments(given, held, ts, args)
    ensures Arguments(given, held, ts + [t], args + ValueOf(held, t))
  {
    var cuts :| CutAt(given, held, ts, args, cuts);
    CutsSnoc(given, held, ts, args, cuts, t);
  }

  lemma SliceOfPrefix<T>(s: seq<T>, m: nat, i: nat, j: nat)
    requires i <= j <= m <= |s|
    ensures s[..m][i..j] == s[i..j]
  {
  }

  /** Without the last trigger, the list ends at the cut before it. */
  lemma CutsInit(given: seq<Value>, held: map<Name, seq<Value>>, ts: seq<Name>, args: seq<Value>, cuts: seq<nat>)
    requires CutAt(given, held, ts, args, cuts) && ts != []
    ensures var n := |ts| - 1; CutAt(given, held, ts[..n], args[..cuts[n]], cuts[..n + 1])
    ensures args == args[..cuts[|ts| - 1]] + ValueOf(held, ts[|ts| - 1])
  {
    var n := |ts| - 1;
    SliceOfPrefix(args, cuts[n], 0, cuts[0]);
    assert args[..cuts[n]][..cuts[0]] == given;
    forall i | 0 <= i < n ensures args[..cuts[n]][cuts[..n + 1][i]..cuts[..n + 1][i + 1]] == ValueOf(held, ts[..n][i]) {
      SliceOfPrefix(args, cuts[n], cuts[i], cuts[i + 1]);
    }
    assert args[cuts[n]..cuts[n + 1]] == ValueOf(held, ts[n]);
  }

  /** There is only one such list. */
  lemma {:induction false} ArgumentsAreDetermined(given: seq<Value>, held: map<Name, seq<Value>>, ts: seq<Name>,
                                                  args: seq<Value>, cuts: seq<nat>)
    requires CutAt(given, held, ts, args, cuts)
    ensures args == given + Inputs(held, ts)
    decreases |ts|
  {
    if ts == [] {
      assert args[..|args|] == args;
    } else {
      var rest, t := ts[..|ts| - 1], ts[|ts| - 1];
      assert ts == rest + [t];
      CutsInit(given, held, ts, args, cuts);
      ArgumentsAreDetermined(given, held, rest, args[..cuts[|rest|]], cuts[..|rest| + 1]);
      InputsSnoc(given, held, rest, t);
    }
  }

  /** The triggers that an executed function sends, one per edge. */
  function Fanout(edges: seq<Edge>, f: Name, result: seq<Value>): seq<Message> {
    if edges == [] then []
    else Fanout(edges[..|edges| - 1], f, result) +
         if edges[|edges| - 1].source == f then [Trigger(f, edges[|edges| - 1].sink, result)] else []
  }

  lemma {:induction false} FanoutMembers(edges: seq<Edge>, f: Name, result: seq<Value>, m: Message)
    ensures m in Fanout(edges, f, result) <==>
            m.Trigger? && m.source == f && m.args == result && Edge(f, m.target) in edges
  {
    if edges != [] {
      FanoutMembers(edges[..|edges| - 1], f, result, m);
      assert edges == edges[..|edges| - 1] + [edges[|edges| - 1]];
    }
  }

  /** The triggers go out in the order of the edges. */
  lemma {:induction false} FanoutInOrder(a: seq<Edge>, b: seq<Edge>, f: Name, result: seq<Value>)
    ensures Fanout(a + b, f, result) == Fanout(a, f, result) + Fanout(b, f, result)
  {
    if b == [] {
      assert a + b == a;
    } else {
      var init, last := b[..|b| - 1], b[|b| - 1];
      FanoutInOrder(a, init, f, result);
      assert b == init + [last] && a + b == (a + init) + [last];
      FanoutSnoc(init, last, f, result);
      FanoutSnoc(a + init, last, f, result);
    }
  }

  lemma {:induction false} FanoutSnoc(edges: seq<Edge>, e: Edge, f: Name, result: seq<Value>)
    ensures Fanout(edges + [e], f, result) ==
            Fanout(edges, f, result) + if e.source == f then [Trigger(f, e.sink, result)] else []
  {
    assert (edges + [e])[..|edges + [e]| - 1] == edges;
  }

  lemma {:induction false} FanoutOfEdge(e: Edge, f: Name, result: seq<Value>)
    ensures Fanout([e], f, result) == if e.source == f then [Trigger(f, e.sink, result)] else []
  {
    assert Fanout([], f, result) == [];
  }

  /** A requested execution: the DAG, the arguments given by the client, and what the functions compute. */
  datatype Request = Request(dag: Dag, arguments: map<Name, seq<Value>>, run: (Name, seq<Value>) -> seq<Value>)

  /** The result of a function whose triggers carry the values in `held`. */
  function ResultOf(q: Request, f: Name, held: map<Name, seq<Value>>): seq<Value> {
    q.run(f, ValueOf(q.arguments, f) + Inputs(held, Triggers(q.dag, f)))
  }

  method GatherArguments(q: Request, f: Name, received: map<Name, seq<Value>>) returns (args: seq<Value>)
    requires forall t | t in Triggers(q.dag, f) :: t in received
    ensures args == ValueOf(q.arguments, f) + Inputs(received, Triggers(q.dag, f))
    ensures Arguments(ValueOf(q.arguments, f), received, Triggers(q.dag, f), args)
  {
    args := ValueOf(q.arguments, f);
    var triggers := Triggers(q.dag, f);
    for i := 0 to |triggers|
      invariant args == ValueOf(q.arguments, f) + Inputs(received, triggers[..i])
    {
      assert triggers[..i + 1][..i] == triggers[..i];
      args := args + received[triggers[i]];
    }
    assert triggers[..|triggers|] == triggers;
    InputsAreArguments(ValueOf(q.arguments, f), received, triggers);
  }

  method SendTriggers(edges: seq<Edge>, f: Name, result: seq<Value>) returns (sent: seq<Message>, isSink: bool)
    ensures sent == Fanout(edges, f, result)
    ensures isSink <==> forall e | e in edges :: e.source != f
  {
    sent, isSink := [], true;
    for i := 0 to |edges|
      invariant sent == Fanout(edges[..i], f, result)
      invariant isSink <==> forall j | 0 <= j < i :: edges[j].source != f
    {
      assert edges[..i + 1][..i] == edges[..i];
      if edges[i].source == f {
        isSink := false;
        sent := sent + [Trigger(f, edges[i].sink, result)];
      }
    }
    assert edges[..|edges|] == edges;
  }

  /** The execution of a function all of whose triggers are here. */
  method ExecDagFunction(q: Request, f: Name, received: map<Name, seq<Value>>)
    returns (result: seq<Value>, sent: seq<Message>, isSink: bool, ghost args: seq<Value>)
    requires forall t | t in Triggers(q.dag, f) :: t in received
    ensures Arguments(ValueOf(q.arguments, f), received, Triggers(q.dag, f), args) && result == q.run(f, args)
    ensures result == ResultOf(q, f, received)
    ensures sent == Fanout(q.dag.connections, f, result)
    ensures isSink <==> forall e | e in q.dag.connections :: e.source != f
  {
    var fargs := GatherArguments(q, f, received);
    args := fargs;
    result := q.run(f, fargs);
    sent, isSink := SendTriggers(q.dag.connections, f, result);
  }

  // ------------------------------------------------------------ the whole request

  /**
    One request in progress: the messages in flight, what the executors hold, the
    functions executed so far in order, and their results.
   */
  datatype System = System(flight: multiset<Message>, slots: map<Name, Slot>, executed: seq<Name>,
                           results: map<Name, seq<Value>>)

  /** The messages of the scheduler. */
  function Initial(dag: Dag): System {
    System(multiset(set f | f in dag.functions :: Schedule(f)) +
           multiset(set f | f in dag.functions && IsSource(dag, f) :: Trigger(BEGIN, f, [])),
           map f | f in dag.functions :: IDLE,
           [],
           map[])
  }

  /** A message leaves the network and enters the tables of its executor. */
  function Absorb(s: System, m: Message): System
    requires m.target in s.slots
  {
    var slot := s.slots[m.target];
    s.(flight := s.flight - multiset{m},
       slots := s.slots[m.target := if m.Schedule? then OnSchedule(slot) else OnTrigger(slot, m.source, m.args)])
  }

  function Fire(q: Request, s: System, f: Name): System
    requires f in s.slots
  {
    var result := ResultOf(q, f, s.slots[f].received);
    System(s.flight + multiset(Fanout(q.dag.connections, f, result)), s.slots[f := IDLE], s.executed + [f],
           s.results[f := result])
  }

  function Deliver(q: Request, s: System, m: Message): System
    requires m.target in s.slots
  {
    var s' := Absorb(s, m);
    if Ready(s'.slots[m.target], |Triggers(q.dag, m.target)|) then Fire(q, s', m.target) else s'
  }

  /** The network may deliver a trigger more than once. */
  function Duplicate(s: System, m: Message): System {
    s.(flight := s.flight + multiset{m})
  }

  /** Edges lead to functions of the DAG, and the name of the scheduler's trigger is not used by one. */
  predicate WellFormed(dag: Dag) {
    && Sinks(dag.connections) <= dag.functions
    && BEGIN !in dag.functions
    && forall e | e in dag.connections :: e.source != BEGIN
  }

  // ------------------------------------------------------------------- invariants

  ghost predicate Known(s: System, u: Name) { u == BEGIN || u in s.results }

  /** A value that `f` was sent in the name of `u`. */
  ghost predicate Genuine(q: Request, s: System, u: Name, f: Name, args: seq<Value>) {
    u in TriggerSet(q.dag, f) && Known(s, u) && args == ValueOf(s.results, u)
  }

  ghost predicate Domains(q: Request, s: System) {
    && s.slots.Keys == q.dag.functions
    && (forall f :: f in s.results <==> f in s.executed)
    && s.results.Keys <= q.dag.functions
    && forall m | m in s.flight :: m.target in q.dag.functions
  }

  /** Every function has one schedule, in flight, queued or used. */
  ghost predicate OneSchedule(q: Request, s: System) {
    forall f | f in s.slots ::
      s.flight[Schedule(f)] + (if s.slots[f].queued then 1 else 0) + multiset(s.executed)[f] == 1
  }

  ghost predicate AllGenuine(q: Request, s: System) {
    && (forall m | m in s.flight && m.Trigger? :: Genuine(q, s, m.source, m.target, m.args))
    && forall f, u | f in s.slots && u in s.slots[f].received :: Genuine(q, s, u, f, s.slots[f].received[u])
  }

  /** A trigger that is due to `f` is in flight or has been received. */
  ghost predicate Due(s: System, u: Name, f: Name)
    requires f in s.slots
  {
    u in s.slots[f].received || Trigger(u, f, ValueOf(s.results, u)) in s.flight
  }

  ghost predicate NoneLost(q: Request, s: System) {
    forall f, u | f in s.slots && f !in s.results && u in TriggerSet(q.dag, f) && Known(s, u) :: Due(s, u, f)
  }

  /** Every function ran after its predecessors. */
  ghost predicate InOrder(edges: seq<Edge>, executed: seq<Name>) {
    forall i, u | 0 <= i < |executed| && u in Predecessors(edges, executed[i]) :: u in executed[..i]
  }

  ghost predicate NoRepeats(names: seq<Name>) {
    forall i, j | 0 <= i < j < |names| :: names[i] != names[j]
  }

  /** Only functions whose predecessors are listed once ran. */
  ghost predicate RanDistinct(q: Request, results: map<Name, seq<Value>>) {
    forall f | f in results :: NoRepeats(Triggers(q.dag, f))
  }

  /** Every result is the function applied to the client's arguments and the results of the predecessors. */
  ghost predicate Computed(q: Request, results: map<Name, seq<Value>>) {
    forall f | f in results :: results[f] == ResultOf(q, f, results)
  }

  ghost predicate Inv(q: Request, s: System) {
    && Domains(q, s) && OneSchedule(q, s) && AllGenuine(q, s) && NoneLost(q, s)
    && InOrder(q.dag.connections, s.executed) && Computed(q, s.results) && RanDistinct(q, s.results)
  }

  /** No function is left waiting although everything it waits for is here. */
  ghost predicate NoneReady(q: Request, s: System) {
    forall f | f in s.slots :: !Ready(s.slots[f], |Triggers(q.dag, f)|)
  }

  lemma InitialTriggers(q: Request)
    requires WellFormed(q.dag)
    ensures AllGenuine(q, Initial(q.dag)) && NoneLost(q, Initial(q.dag))
  {
    var s := Initial(q.dag);
    forall f, u | f in s.slots && f !in s.results && u in TriggerSet(q.dag, f) && Known(s, u) ensures Due(s, u, f) {
      PredecessorsAreEdges(q.dag.connections, f);
      assert u == BEGIN && Edge(u, f) !in q.dag.connections;
      assert IsSource(q.dag, f);
    }
  }

  lemma InitialHolds(q: Request)
    requires WellFormed(q.dag)
    ensures Inv(q, Initial(q.dag)) && NoneReady(q, Initial(q.dag))
  {
    InitialTriggers(q);
    var s := Initial(q.dag);
    assert Domains(q, s) && OneSchedule(q, s);
  }

  lemma AbsorbKeepsSchedules(q: Request, s: System, m: Message)
    requires Domains(q, s) && OneSchedule(q, s) && m in s.flight
    ensures Domains(q, Absorb(s, m)) && OneSchedule(q, Absorb(s, m))
  {
  }

  lemma AbsorbKeepsTriggers(q: Request, s: System, m: Message)
    requires Domains(q, s) && AllGenuine(q, s) && NoneLost(q, s) && m in s.flight
    ensures AllGenuine(q, Absorb(s, m)) && NoneLost(q, Absorb(s, m))
  {
    var s' := Absorb(s, m);
    forall u, f, args | Genuine(q, s, u, f, args) ensures Genuine(q, s', u, f, args) {
    }
    forall f, u | f in s'.slots && f !in s'.results && u in TriggerSet(q.dag, f) && Known(s', u) ensures Due(s', u, f) {
      assert Due(s, u, f);
    }
  }

  lemma AbsorbKeepsInv(q: Request, s: System, m: Message)
    requires Inv(q, s) && m in s.flight
    ensures Inv(q, Absorb(s, m))
  {
    AbsorbKeepsSchedules(q, s, m);
    AbsorbKeepsTriggers(q, s, m);
  }

  /** A list is at least as long as a set of its members, and longer unless it lists exactly them, once each. */
  lemma {:induction false} FewerNames(ts: seq<Name>, names: set<Name>)
    requires forall t | t in names :: t in ts
    ensures |names| <= |ts|
    ensures |names| == |ts| ==> forall t | t in ts :: t in names
    ensures |names| == |ts| ==> NoRepeats(ts)
  {
    if ts != [] {
      var last, rest := ts[|ts| - 1], ts[..|ts| - 1];
      assert ts == rest + [last];
      FewerNames(rest, names - {last});
      assert |names| == |names - {last}| + if last in names then 1 else 0;
      assert last !in names - {last};
    }
  }

  /** A function that is ready has exactly the triggers it is to have, and never ran before. */
  lemma ReadyIsComplete(q: Request, s: System, f: Name)
    requires Inv(q, s) && f in s.slots && Ready(s.slots[f], |Triggers(q.dag, f)|)
    ensures s.slots[f].received.Keys == TriggerSet(q.dag, f)
    ensures NoRepeats(Triggers(q.dag, f))
    ensures f !in s.results && s.flight[Schedule(f)] == 0
  {
    FewerNames(Triggers(q.dag, f), s.slots[f].received.Keys);
    assert f in s.executed ==> multiset(s.executed)[f] > 0;
  }

  /** What the received triggers carry are the results of the predecessors. */
  lemma {:induction false} SameInputs(a: map<Name, seq<Value>>, b: map<Name, seq<Value>>, ts: seq<Name>)
    requires forall t | t in ts :: ValueOf(a, t) == ValueOf(b, t)
    ensures Inputs(a, ts) == Inputs(b, ts)
  {
    if ts != [] {
      SameInputs(a, b, ts[..|ts| - 1]);
    }
  }

  lemma FireKeepsSchedules(q: Request, s: System, f: Name)
    requires WellFormed(q.dag) && Inv(q, s) && f in s.slots && Ready(s.slots[f], |Triggers(q.dag, f)|)
    ensures Domains(q, Fire(q, s, f)) && OneSchedule(q, Fire(q, s, f))
  {
    var s' := Fire(q, s, f);
    var sent := Fanout(q.dag.connections, f, s'.results[f]);
    forall m | m in sent ensures m.Trigger? && m.target in q.dag.functions {
      FanoutMembers(q.dag.connections, f, s'.results[f], m);
      assert m.target in Sinks(q.dag.connections);
    }
    forall g ensures multiset(sent)[Schedule(g)] == 0 {
      assert Schedule(g) !in sent;
    }
    assert f in s.slots && s.flight[Schedule(f)] + multiset(s.executed)[f] == 0;
  }

  /** The triggers that `f` sends are genuine, and so stay all others. */
  lemma FireKeepsGenuine(q: Request, s: System, f: Name)
    requires WellFormed(q.dag) && Domains(q, s) && AllGenuine(q, s) && f in s.slots && f !in s.results
    ensures AllGenuine(q, Fire(q, s, f))
  {
    var s' := Fire(q, s, f);
    var edges, result := q.dag.connections, s'.results[f];
    forall u, g, args | Genuine(q, s, u, g, args) ensures Genuine(q, s', u, g, args) {
    }
    forall m | m in Fanout(edges, f, result) ensures m.Trigger? && Genuine(q, s', m.source, m.target, m.args) {
      FanoutMembers(edges, f, result, m);
      PredecessorsAreEdges(edges, m.target);
      assert f in Triggers(q.dag, m.target);
    }
  }

  lemma FireKeepsDue(q: Request, s: System, f: Name, g: Name, u: Name)
    requires WellFormed(q.dag) && Domains(q, s) && NoneLost(q, s) && f in s.slots && f !in s.results
    requires g in s.slots && g !in s.results && g != f && u in TriggerSet(q.dag, g) && Known(Fire(q, s, f), u)
    ensures Due(Fire(q, s, f), u, g)
  {
    if u == f {
      var result := Fire(q, s, f).results[f];
      PredecessorsAreEdges(q.dag.connections, g);
      FanoutMembers(q.dag.connections, f, result, Trigger(f, g, result));
    } else {
      assert Due(s, u, g);
    }
  }

  lemma FireKeepsTriggers(q: Request, s: System, f: Name)
    requires WellFormed(q.dag) && Inv(q, s) && f in s.slots && f !in s.results
    ensures AllGenuine(q, Fire(q, s, f)) && NoneLost(q, Fire(q, s, f))
  {
    var s' := Fire(q, s, f);
    FireKeepsGenuine(q, s, f);
    forall g, u | g in s'.slots && g !in s'.results && u in TriggerSet(q.dag, g) && Known(s', u) ensures Due(s', u, g) {
      FireKeepsDue(q, s, f, g, u);
    }
  }

  /** What a function that ran was waiting for ran before it. */
  lemma TriggersRanBefore(q: Request, s: System, g: Name, t: Name)
    requires InOrder(q.dag.connections, s.executed) && Domains(q, s) && g in s.results && t in Triggers(q.dag, g)
    ensures Known(s, t)
  {
  }

  /** When `f` is ready, what it waits for has run, and the triggers carry the results. */
  lemma ReadyTriggers(q: Request, s: System, f: Name, t: Name)
    requires WellFormed(q.dag) && Inv(q, s) && f in s.slots && Ready(s.slots[f], |Triggers(q.dag, f)|)
    requires t in Triggers(q.dag, f)
    ensures t != f && Known(s, t) && ValueOf(s.slots[f].received, t) == ValueOf(s.results, t)
  {
    ReadyIsComplete(q, s, f);
    assert t in s.slots[f].received.Keys;
    assert Genuine(q, s, t, f, s.slots[f].received[t]);
  }

  lemma {:induction false} OneMoreInOrder(edges: seq<Edge>, executed: seq<Name>, f: Name)
    requires InOrder(edges, executed) && forall u | u in Predecessors(edges, f) :: u in executed
    ensures InOrder(edges, executed + [f])
  {
    var more := executed + [f];
    forall i, u | 0 <= i < |more| && u in Predecessors(edges, more[i]) ensures u in more[..i] {
      assert more[..i] == executed[..i];
      assert executed[..|executed|] == executed;
    }
  }

  lemma FireKeepsOrder(q: Request, s: System, f: Name)
    requires WellFormed(q.dag) && Inv(q, s) && f in s.slots && Ready(s.slots[f], |Triggers(q.dag, f)|)
    ensures InOrder(q.dag.connections, s.executed + [f])
  {
    forall u | u in Predecessors(q.dag.connections, f) ensures u in s.executed {
      PredecessorsAreEdges(q.dag.connections, f);
      ReadyTriggers(q, s, f, u);
      assert Edge(u, f).source != BEGIN;
    }
    OneMoreInOrder(q.dag.connections, s.executed, f);
  }

  lemma FireKeepsComputed(q: Request, s: System, f: Name)
    requires WellFormed(q.dag) && Inv(q, s) && f in s.slots && Ready(s.slots[f], |Triggers(q.dag, f)|)
    requires f !in s.results
    ensures Computed(q, Fire(q, s, f).results)
  {
    var s' := Fire(q, s, f);
    forall t | t in Triggers(q.dag, f) ensures ValueOf(s.slots[f].received, t) == ValueOf(s'.results, t) {
      ReadyTriggers(q, s, f, t);
    }
    SameInputs(s.slots[f].received, s'.results, Triggers(q.dag, f));
    forall g | g in s.results ensures s'.results[g] == ResultOf(q, g, s'.results) {
      forall t | t in Triggers(q.dag, g) ensures ValueOf(s.results, t) == ValueOf(s'.results, t) {
        TriggersRanBefore(q, s, g, t);
      }
      SameInputs(s.results, s'.results, Triggers(q.dag, g));
    }
  }

  /** A function that is ready runs for the first time, and its run keeps the invariants. */
  lemma FireKeepsInv(q: Request, s: System, f: Name)
    requires WellFormed(q.dag) && Inv(q, s) && f in s.slots && Ready(s.slots[f], |Triggers(q.dag, f)|)
    ensures f !in s.results && Inv(q, Fire(q, s, f))
  {
    ReadyIsComplete(q, s, f);
    FireKeepsSchedules(q, s, f);
    FireKeepsTriggers(q, s, f);
    FireKeepsOrder(q, s, f);
    FireKeepsComputed(q, s, f);
  }

  lemma DeliverRunsOnlyReady(q: Request, s: System, m: Message)
    requires Domains(q, s) && NoneReady(q, s) && m in s.flight
    ensures NoneReady(q, Deliver(q, s, m))
  {
  }

  /** Every message keeps the invariants. */
  lemma DeliverKeepsInv(q: Request, s: System, m: Message)
    requires WellFormed(q.dag) && Inv(q, s) && NoneReady(q, s) && m in s.flight
    ensures Inv(q, Deliver(q, s, m)) && NoneReady(q, Deliver(q, s, m))
  {
    AbsorbKeepsInv(q, s, m);
    DeliverRunsOnlyReady(q, s, m);
    var s' := Absorb(s, m);
    if Ready(s'.slots[m.target], |Triggers(q.dag, m.target)|) {
      FireKeepsInv(q, s', m.target);
    }
  }

  /** Every message runs a new function or leaves fewer messages. */
  lemma DeliverMakesProgress(q: Request, s: System, m: Message)
    requires Inv(q, s) && m in s.flight
    ensures var s' := Deliver(q, s, m);
            if s'.executed == s.executed then s'.results == s.results && |s'.flight| < |s.flight|
            else m.target !in s.results && s'.results.Keys == s.results.Keys + {m.target}
  {
    AbsorbKeepsInv(q, s, m);
    var s', f := Absorb(s, m), m.target;
    if Ready(s'.slots[f], |Triggers(q.dag, f)|) {
      ReadyIsComplete(q, s', f);
      FireAddsResult(q, s', f);
    }
  }

  lemma FireAddsResult(q: Request, s: System, f: Name)
    requires f in s.slots
    ensures Fire(q, s, f).results.Keys == s.results.Keys + {f} && |Fire(q, s, f).executed| == |s.executed| + 1
  {
  }

  lemma DuplicateKeepsInv(q: Request, s: System, m: Message)
    requires Inv(q, s) && NoneReady(q, s) && m in s.flight && m.Trigger?
    ensures Inv(q, Duplicate(s, m)) && NoneReady(q, Duplicate(s, m))
  {
    DuplicateKeepsMessages(q, s, m);
    DuplicateKeepsTriggers(q, s, m);
  }

  lemma DuplicateKeepsMessages(q: Request, s: System, m: Message)
    requires Domains(q, s) && OneSchedule(q, s) && m in s.flight && m.Trigger?
    ensures Domains(q, Duplicate(s, m)) && OneSchedule(q, Duplicate(s, m))
  {
    assert forall n | n in Duplicate(s, m).flight :: n in s.flight;
  }

  lemma DuplicateKeepsTriggers(q: Request, s: System, m: Message)
    requires AllGenuine(q, s) && NoneLost(q, s) && m in s.flight && m.Trigger?
    ensures AllGenuine(q, Duplicate(s, m)) && NoneLost(q, Duplicate(s, m))
  {
    var s' := Duplicate(s, m);
    assert forall n | n in s'.flight :: n in s.flight;
    forall u, f, args | Genuine(q, s, u, f, args) ensures Genuine(q, s', u, f, args) {
    }
    forall f, u | f in s.slots && Due(s, u, f) ensures Due(s', u, f) {
    }
  }

  // ---------------------------------------------------------------------- results

  /** At most one execution of every function. */
  lemma AtMostOnce(q: Request, s: System, i: nat, j: nat)
    requires Inv(q, s) && i < j < |s.executed|
    ensures s.executed[i] != s.executed[j]
  {
    var f := s.executed[i];
    assert f in s.results && f in s.slots;
    assert s.executed == s.executed[..j] + s.executed[j..];
    assert f in s.executed[..j];
    assert s.executed[j] in s.executed[j..];
    assert multiset(s.executed)[f] == multiset(s.executed[..j])[f] + multiset(s.executed[j..])[f];
  }

  /** The function ran on the client's arguments and, position by position, on the results of its predecessors. */
  ghost predicate RanOn(q: Request, results: map<Name, seq<Value>>, f: Name)
    requires f in results
  {
    exists args :: Arguments(ValueOf(q.arguments, f), results, Triggers(q.dag, f), args) && results[f] == q.run(f, args)
  }

  lemma ComputedRanOn(q: Request, results: map<Name, seq<Value>>, f: Name)
    requires f in results
    ensures RanOn(q, results, f) <==> results[f] == ResultOf(q, f, results)
  {
    var given, ts := ValueOf(q.arguments, f), Triggers(q.dag, f);
    InputsAreArguments(given, results, ts);
    if RanOn(q, results, f) {
      var args :| Arguments(given, results, ts, args) && results[f] == q.run(f, args);
      var cuts :| CutAt(given, results, ts, args, cuts);
      ArgumentsAreDetermined(given, results, ts, args, cuts);
    }
  }

  /** Results for all functions that agree with each other. */
  ghost predicate Solves(q: Request, r: map<Name, seq<Value>>) {
    r.Keys == q.dag.functions && Computed(q, r)
  }

  /** The functions can be numbered so that every edge goes up. */
  ghost predicate Numbers(dag: Dag, rank: map<Name, nat>) {
    && rank.Keys == dag.functions
    && forall e | e in dag.connections ::
         e.source in dag.functions && e.sink in dag.functions && rank[e.source] < rank[e.sink]
  }

  ghost predicate Acyclic(dag: Dag) {
    exists rank :: Numbers(dag, rank)
  }

  /** No two edges connect the same functions. */
  ghost predicate Simple(dag: Dag) {
    forall i, j | 0 <= i < j < |dag.connections| :: dag.connections[i] != dag.connections[j]
  }

  ghost predicate Finished(s: System) {
    s.flight == multiset{}
  }

  ghost predicate Complete(q: Request, s: System) {
    s.results.Keys == q.dag.functions
  }

  lemma NoRepeatsSnoc(names: seq<Name>, last: Name)
    ensures NoRepeats(names + [last]) <==> NoRepeats(names) && last !in names
  {
    var more := names + [last];
    assert forall i | 0 <= i < |names| :: more[i] == names[i];
    assert more[|names|] == last;
  }

  ghost predicate SimpleInto(edges: seq<Edge>, f: Name) {
    forall i, j | 0 <= i < j < |edges| && edges[i].sink == f :: edges[i] != edges[j]
  }

  /** Edges into one function are all different if its predecessors are listed once, and only then. */
  lemma {:induction false} DistinctPredecessors(edges: seq<Edge>, f: Name)
    ensures NoRepeats(Predecessors(edges, f)) <==> SimpleInto(edges, f)
  {
    if edges != [] {
      var rest, last := edges[..|edges| - 1], edges[|edges| - 1];
      DistinctPredecessors(rest, f);
      PredecessorsAreEdges(rest, f);
      NoRepeatsSnoc(Predecessors(rest, f), last.source);
      assert forall i | 0 <= i < |rest| :: edges[i] == rest[i];
      assert SimpleInto(edges, f) <==> SimpleInto(rest, f) && (last.sink == f ==> last !in rest);
      assert last == Edge(last.source, last.sink);
      assert last.sink != f ==> Predecessors(edges, f) == Predecessors(rest, f);
    }
  }

  /** A function that is left over waits for one that is left over. */
  lemma Blocked(q: Request, s: System, f: Name) returns (u: Name)
    requires Inv(q, s) && NoneReady(q, s) && Finished(s) && Simple(q.dag)
    requires f in q.dag.functions && f !in s.results
    ensures Edge(u, f) in q.dag.connections && u !in s.results
  {
    var received, ts := s.slots[f].received, Triggers(q.dag, f);
    assert f !in s.executed && s.slots[f].queued;
    PredecessorsAreEdges(q.dag.connections, f);
    DistinctPredecessors(q.dag.connections, f);
    if forall t | t in ts :: t in received {
      AllNames(ts, received.Keys);
    }
    u :| u in ts && u !in received;
    assert u in TriggerSet(q.dag, f);
    assert Known(s, u) ==> Due(s, u, f);
  }

  /** A list without repeats is as long as the set of its members. */
  lemma {:induction false} AllNames(ts: seq<Name>, names: set<Name>)
    requires NoRepeats(ts) && names == set t | t in ts
    ensures |names| == |ts|
  {
    if ts != [] {
      var last, rest := ts[|ts| - 1], ts[..|ts| - 1];
      assert last !in rest;
      assert names - {last} == set t | t in rest;
      AllNames(rest, names - {last});
    }
  }

  lemma {:induction false} NumberedRuns(q: Request, s: System, rank: map<Name, nat>, f: Name)
    requires Inv(q, s) && NoneReady(q, s) && Finished(s) && Simple(q.dag)
    requires Numbers(q.dag, rank) && f in q.dag.functions
    ensures f in s.results
    decreases rank[f]
  {
    if f !in s.results {
      var u := Blocked(q, s, f);
      NumberedRuns(q, s, rank, u);
    }
  }

  function FirstIndex(names: seq<Name>, f: Name): (i: nat)
    requires f in names
    ensures i < |names| && names[i] == f && f !in names[..i]
  {
    if names[0] == f then 0 else 1 + FirstIndex(names[1..], f)
  }

  /** An edge's sink is a function that lists its source among the predecessors. */
  lemma EdgeIsListed(dag: Dag, e: Edge)
    requires WellFormed(dag) && e in dag.connections
    ensures e.sink in dag.functions && e.source in Predecessors(dag.connections, e.sink)
    ensures Triggers(dag, e.sink) == Predecessors(dag.connections, e.sink)
  {
    assert e.sink in Sinks(dag.connections);
    PredecessorsAreEdges(dag.connections, e.sink);
    assert e == Edge(e.source, e.sink);
  }

  /** An order in which everything ran numbers the functions. */
  lemma OrderNumbers(dag: Dag, executed: seq<Name>)
    requires WellFormed(dag) && InOrder(dag.connections, executed)
    requires forall f :: f in executed <==> f in dag.functions
    ensures Acyclic(dag)
  {
    var rank := map f | f in dag.functions :: FirstIndex(executed, f);
    forall e | e in dag.connections
      ensures e.source in dag.functions && e.sink in dag.functions && rank[e.source] < rank[e.sink]
    {
      EdgeIsListed(dag, e);
      assert e.source in executed[..rank[e.sink]];
    }
    assert Numbers(dag, rank);
  }

  lemma RanDistinctIsSimple(q: Request, results: map<Name, seq<Value>>)
    requires WellFormed(q.dag) && RanDistinct(q, results) && results.Keys == q.dag.functions
    ensures Simple(q.dag)
  {
    forall i, j | 0 <= i < j < |q.dag.connections| ensures q.dag.connections[i] != q.dag.connections[j] {
      EdgeIsListed(q.dag, q.dag.connections[i]);
      DistinctPredecessors(q.dag.connections, q.dag.connections[i].sink);
    }
  }

  /** When no message is left, every function has run if and only if the graph has no cycle and no repeated edge. */
  lemma CompleteIff(q: Request, s: System)
    requires WellFormed(q.dag) && Inv(q, s) && NoneReady(q, s) && Finished(s)
    ensures Complete(q, s) <==> Acyclic(q.dag) && Simple(q.dag)
  {
    if Complete(q, s) {
      OrderNumbers(q.dag, s.executed);
      RanDistinctIsSimple(q, s.results);
    } else if Acyclic(q.dag) && Simple(q.dag) {
      var rank :| Numbers(q.dag, rank);
      forall f | f in q.dag.functions ensures f in s.results {
        NumberedRuns(q, s, rank, f);
      }
    }
  }

  /** The results of an acyclic DAG are determined by the request. */
  lemma {:induction false} SameResult(q: Request, rank: map<Name, nat>, a: map<Name, seq<Value>>, b: map<Name, seq<Value>>,
                                      f: Name)
    requires WellFormed(q.dag) && Numbers(q.dag, rank) && f in q.dag.functions
    requires Solves(q, a) && Solves(q, b)
    ensures a[f] == b[f]
    decreases rank[f]
  {
    forall t | t in Triggers(q.dag, f) ensures ValueOf(a, t) == ValueOf(b, t) {
      PredecessorsAreEdges(q.dag.connections, f);
      if t in q.dag.functions {
        assert Edge(t, f) in q.dag.connections;
        SameResult(q, rank, a, b, t);
      }
    }
    SameInputs(a, b, Triggers(q.dag, f));
  }

  lemma ResultsAreDetermined(q: Request, a: map<Name, seq<Value>>, b: map<Name, seq<Value>>)
    requires WellFormed(q.dag) && Acyclic(q.dag) && Solves(q, a) && Solves(q, b)
    ensures a == b
  {
    var rank :| Numbers(q.dag, rank);
    forall f | f in q.dag.functions ensures a[f] == b[f] {
      SameResult(q, rank, a, b, f);
    }
  }

  /**
    A request under any order of delivery and up to `duplicates` duplicated triggers.  It
    comes to rest; everything has run, once, exactly if the graph allows it; and then the
    results are the ones that the request determines.
   */
  method Execute(q: Request, duplicates: nat) returns (s: System)
    requires WellFormed(q.dag)
    ensures Inv(q, s) && NoneReady(q, s) && Finished(s)
    ensures Complete(q, s) <==> Acyclic(q.dag) && Simple(q.dag)
    ensures Complete(q, s) ==> forall r | Solves(q, r) :: s.results == r
    ensures NoRepeats(s.executed)
    ensures forall f | f in s.results :: RanOn(q, s.results, f)
  {
    s := Initial(q.dag);
    InitialHolds(q);
    var budget := duplicates;
    while s.flight != multiset{}
      invariant Inv(q, s) && NoneReady(q, s)
      decreases budget, q.dag.functions - s.results.Keys, |s.flight|
    {
      var m :| m in s.flight;
      var again: bool := *;
      if again && budget > 0 && m.Trigger? {
        DuplicateKeepsInv(q, s, m);
        s := Duplicate(s, m);
        budget := budget - 1;
      } else {
        DeliverKeepsInv(q, s, m);
        DeliverMakesProgress(q, s, m);
        s := Deliver(q, s, m);
      }
    }
    CompleteIff(q, s);
    forall r | Complete(q, s) && Solves(q, r) ensures s.results == r {
      ResultsAreDetermined(q, s.results, r);
    }
    forall i, j | 0 <= i < j < |s.executed| ensures s.executed[i] != s.executed[j] {
      AtMostOnce(q, s, i, j);
    }
    forall f | f in s.results ensures RanOn(q, s.results, f) {
      ComputedRanOn(q, s.results, f);
    }
  }

  // ------------------------------------------------- the functions still to come

  /** A walk of at least one edge. */
  ghost predicate IsWalk(edges: seq<Edge>, p: seq<Name>) {
    |p| >= 2 && forall i | 0 <= i < |p| - 1 :: Edge(p[i], p[i + 1]) in edges
  }

  ghost predicate Descends(edges: seq<Edge>, f: Name, g: Name) {
    exists p :: IsWalk(edges, p) && p[0] == f && p[|p| - 1] == g
  }

  lemma ChildDescends(edges: seq<Edge>, f: Name, e: Edge)
    requires e in edges && (e.source == f || Descends(edges, f, e.source))
    ensures Descends(edges, f, e.sink)
  {
    var p := [f];
    if e.source != f {
      p :| IsWalk(edges, p) && p[0] == f && p[|p| - 1] == e.source;
    }
    var more := p + [e.sink];
    assert e == Edge(e.source, e.sink);
    forall i | 0 <= i < |more| - 1 ensures Edge(more[i], more[i + 1]) in edges {
      assert i < |p| - 1 ==> more[i + 1] == p[i + 1];
    }
    assert IsWalk(edges, more) && more[0] == f && more[|more| - 1] == e.sink;
  }

  lemma {:induction false} WalksGoUp(dag: Dag, rank: map<Name, nat>, p: seq<Name>)
    requires Numbers(dag, rank) && IsWalk(dag.connections, p)
    ensures p[0] in rank && p[|p| - 1] in rank && rank[p[0]] < rank[p[|p| - 1]]
  {
    assert Edge(p[|p| - 2], p[|p| - 1]) in dag.connections;
    if |p| > 2 {
      WalksGoUp(dag, rank, p[..|p| - 1]);
    }
  }

  ghost function Ancestors(dag: Dag, f: Name): set<Name> {
    set g | g in dag.functions && Descends(dag.connections, g, f)
  }

  lemma {:induction false} SmallerSet(a: set<Name>, b: set<Name>)
    requires a < b
    ensures |a| < |b|
  {
    if a != {} {
      var y :| y in a;
      SmallerSet(a - {y}, b - {y});
    }
  }

  /** Without a cycle, an edge's sink has more ancestors than its source. */
  lemma MoreAncestors(dag: Dag, e: Edge)
    requires e in dag.connections && e.source in dag.functions && !Descends(dag.connections, e.source, e.source)
    ensures |Ancestors(dag, e.source)| < |Ancestors(dag, e.sink)|
  {
    ChildDescends(dag.connections, e.source, e);
    forall g | g in Ancestors(dag, e.source) ensures g in Ancestors(dag, e.sink) {
      ChildDescends(dag.connections, g, e);
    }
    assert e.source in Ancestors(dag, e.sink) - Ancestors(dag, e.source);
    SmallerSet(Ancestors(dag, e.source), Ancestors(dag, e.sink));
  }

  /** A DAG can be numbered if and only if no walk along its edges comes back to where it started. */
  lemma AcyclicIff(dag: Dag)
    requires forall e | e in dag.connections :: e.source in dag.functions && e.sink in dag.functions
    ensures Acyclic(dag) <==> forall f :: !Descends(dag.connections, f, f)
  {
    if forall f :: !Descends(dag.connections, f, f) {
      var rank: map<Name, nat> := map f | f in dag.functions :: |Ancestors(dag, f)|;
      forall e | e in dag.connections ensures rank[e.source] < rank[e.sink] {
        MoreAncestors(dag, e);
      }
      assert Numbers(dag, rank);
    } else if Acyclic(dag) {
      var rank :| Numbers(dag, rank);
      var f :| Descends(dag.connections, f, f);
      var p :| IsWalk(dag.connections, p) && p[0] == f && p[|p| - 1] == f;
      WalksGoUp(dag, rank, p);
    }
  }

  /** The sinks of all edges that leave `f` or a child are children, except maybe of those in `delta`. */
  ghost predicate ClosedUpTo(edges: seq<Edge>, f: Name, children: seq<Name>, delta: seq<Name>) {
    forall e | e in edges && (e.source == f || e.source in children) && e.source !in delta :: e.sink in children
  }

  lemma {:induction false} ClosedHasDescendants(edges: seq<Edge>, f: Name, children: seq<Name>, p: seq<Name>)
    requires ClosedUpTo(edges, f, children, []) && IsWalk(edges, p) && p[0] == f
    ensures p[|p| - 1] in children
  {
    var rest := p[..|p| - 1];
    if |p| > 2 {
      ClosedHasDescendants(edges, f, children, rest);
    }
    assert Edge(p[|p| - 2], p[|p| - 1]) in edges;
  }

  /** One round: the sinks of the edges that leave `delta` and were no children yet. */
  method NextGeneration(edges: seq<Edge>, f: Name, children: seq<Name>, delta: seq<Name>)
    returns (more: seq<Name>, next: seq<Name>)
    requires NoRepeats(children) && ClosedUpTo(edges, f, children, delta)
    requires forall g | g in delta :: g == f || g in children
    requires forall g | g in children :: Descends(edges, f, g) && g in Sinks(edges)
    ensures more == children + next && NoRepeats(more) && ClosedUpTo(edges, f, more, next)
    ensures forall g | g in more :: Descends(edges, f, g) && g in Sinks(edges)
  {
    more, next := children, [];
    for i := 0 to |edges|
      invariant more == children + next && NoRepeats(more)
      invariant forall j | 0 <= j < i && edges[j].source in delta :: edges[j].sink in more
      invariant forall g | g in more :: Descends(edges, f, g) && g in Sinks(edges)
    {
      if edges[i].source in delta && edges[i].sink !in more {
        ChildDescends(edges, f, edges[i]);
        NoRepeatsSnoc(more, edges[i].sink);
        more, next := more + [edges[i].sink], next + [edges[i].sink];
      }
    }
  }

  /** The children of a function are exactly the functions that can still run because of it, each listed once. */
  method ComputeChildren(dag: Dag, f: Name) returns (children: seq<Name>)
    ensures NoRepeats(children)
    ensures forall g :: g in children <==> Descends(dag.connections, f, g)
  {
    var edges := dag.connections;
    children := [];
    var delta := [f];
    while |delta| != 0
      invariant NoRepeats(children) && ClosedUpTo(edges, f, children, delta)
      invariant forall g | g in delta :: g == f || g in children
      invariant forall g | g in children :: Descends(edges, f, g) && g in Sinks(edges)
      decreases Sinks(edges) - (set g | g in children), |delta|
    {
      ghost var before := children;
      children, delta := NextGeneration(edges, f, children, delta);
      if delta != [] {
        assert forall i | 0 <= i < |before| :: children[i] == before[i];
        assert delta[0] == children[|before|] && delta[0] !in before;
        assert delta[0] in Sinks(edges) - (set g | g in before);
        assert delta[0] !in Sinks(edges) - (set g | g in children);
      } else {
        assert children == before;
      }
    }
    forall g | Descends(edges, f, g) ensures g in children {
      var p :| IsWalk(edges, p) && p[0] == f && p[|p| - 1] == g;
      ClosedHasDescendants(edges, f, children, p);
    }
  }
}
