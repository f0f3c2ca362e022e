/** The platform (PVM) and the per-actor runtimes. The platform keeps the
    state table (runtimes by address, routers and groups) and the
    scheduler queues; a runtime is bound to one actor's address and
    context and executes that actor's scripts. The two refer to each
    other, so they share this module. */
module Vm {
  import opened Wrappers
  import opened Values
  import opened AddressTree
  import opened Flags
  import Script
  import Machine
  import Template
  import RuntimeContext

  /** A pending script, queued for the runtime at `address`. */
  datatype Slot = Slot(address: Address, script: Script.Script)

  /** The router for `a`: the route registered at `a` itself or at its
      nearest ancestor that has one. */
  function FindRoute(routers: map<Address, Address>, a: Address): (r: Option<Address>)
    decreases Measure(a)
  {
    if a in routers then Some(routers[a])
    else if a == ROOT then None
    else
      ParentCloser(a);
      FindRoute(routers, GetParent(a))
  }

  /** Anything at or above the parent of `a` lies above `a`. */
  lemma AboveParent(k: Address, a: Address)
    requires a != ROOT && InTree(k, GetParent(a))
    ensures IsAncestor(k, a)
  {
  }

  /** After a route is put at `target`, every address at or under `target`
      is routed to it, unless a route sits strictly between the two. */
  lemma {:induction false} RouteFound(routers: map<Address, Address>, target: Address, router: Address, a: Address)
    requires InTree(target, a)
    requires forall k :: k in routers && InTree(k, a) ==> !IsAncestor(target, k)
    ensures FindRoute(routers[target := router], a) == Some(router)
    decreases Measure(a)
  {
    if a != target {
      assert a !in routers;
      ParentCloser(a);
      var p := GetParent(a);
      forall k | k in routers && InTree(k, p)
        ensures !IsAncestor(target, k)
      {
        AboveParent(k, a);
      }
      RouteFound(routers, target, router, p);
    }
  }

  /** Removing a route changes nothing for addresses not under it. */
  lemma {:induction false} RemoveRouteElsewhere(routers: map<Address, Address>, target: Address, a: Address)
    requires !InTree(target, a)
    ensures FindRoute(routers - {target}, a) == FindRoute(routers, a)
    decreases Measure(a)
  {
    if a !in routers && a != ROOT {
      ParentCloser(a);
      if InTree(target, GetParent(a)) {
        AboveParent(target, a);
      }
      RemoveRouteElsewhere(routers, target, GetParent(a));
    }
  }

  /** After `removeRoute(target)`, `target` is routed by the nearest route
      above it, as if its own had never been put. */
  lemma RouteRemoved(routers: map<Address, Address>, target: Address)
    ensures target != ROOT ==> FindRoute(routers - {target}, target) == FindRoute(routers, GetParent(target))
    ensures target == ROOT ==> FindRoute(routers - {target}, target) == None
  {
    if target != ROOT {
      ParentCloser(target);
      if InTree(target, GetParent(target)) {
        AncestorMeasure(target, GetParent(target));
        assert false;
      }
      RemoveRouteElsewhere(routers, target, GetParent(target));
    }
  }

  /** The slots of `q` queued for `a`, in order. */
  function SlotsOf(q: seq<Slot>, a: Address): (r: seq<Slot>)
    ensures forall s :: s in r ==> s in q && s.address == a
  {
    if q == [] then []
    else (if q[0].address == a then [q[0]] else []) + SlotsOf(q[1..], a)
  }

  /** The slots of `q` queued for anyone but `a`, in order. */
  function SlotsNotOf(q: seq<Slot>, a: Address): (r: seq<Slot>)
    ensures forall s :: s in r ==> s in q && s.address != a
  {
    if q == [] then []
    else (if q[0].address != a then [q[0]] else []) + SlotsNotOf(q[1..], a)
  }

  /** Splitting a queue by address loses and invents no slot. */
  lemma {:induction false} SplitKeepsSlots(q: seq<Slot>, a: Address)
    ensures multiset(SlotsOf(q, a)) + multiset(SlotsNotOf(q, a)) == multiset(q)
  {
    if q != [] {
      SplitKeepsSlots(q[1..], a);
      assert q == [q[0]] + q[1..];
    }
  }

  /** `blocked` without `a`. */
  function Unblock(blocked: seq<Address>, a: Address): (r: seq<Address>)
    ensures a !in r
    ensures forall b :: b in r <==> b in blocked && b != a
  {
    if blocked == [] then []
    else (if blocked[0] == a then [] else [blocked[0]]) + Unblock(blocked[1..], a)
  }

  /** A non-empty set of addresses has a deepest member. */
  lemma {:induction false} DeepestExists(s: set<Address>)
    requires s != {}
    ensures exists x :: x in s && forall y :: y in s ==> Measure(y) <= Measure(x)
    decreases |s|
  {
    var z :| z in s;
    if s - {z} != {} {
      DeepestExists(s - {z});
      var x :| x in s - {z} && forall y :: y in s - {z} ==> Measure(y) <= Measure(x);
      var w := if Measure(z) > Measure(x) then z else x;
      forall y | y in s
        ensures Measure(y) <= Measure(w)
      {
        if y != z {
          assert y in s - {z};
        }
      }
      assert w in s;
    } else {
      forall y | y in s
        ensures Measure(y) <= Measure(z)
      {
        assert y in s - {z} || y == z;
      }
    }
  }

  /** The deepest address of a subtree has nothing of the table below it. */
  lemma NothingBelowDeepest(addr: Address, x: Address, pending: set<Address>, keys: set<Address>)
    requires x in pending && forall y :: y in pending ==> Measure(y) <= Measure(x)
    requires forall a :: a in pending <==> a in keys && InTree(addr, a)
    ensures forall b :: b in keys ==> !IsAncestor(x, b)
  {
    forall b | b in keys
      ensures !IsAncestor(x, b)
    {
      if IsAncestor(x, b) {
        AncestorMeasure(x, b);
        if x != addr {
          AncestorTransitive(addr, x, b);
        }
        assert false;
      }
    }
  }

  /** The bookkeeping of a kill in progress. `pending` is what is left of
      the subtree of `addr`. `order` is what has been removed, each entry
      once, with nothing below it left in `keys` or later in `order`. */
  ghost predicate KillInv(addr: Address, oldKeys: set<Address>, keys: set<Address>,
                          pending: set<Address>, order: seq<Address>)
  {
    && (forall a :: a in pending <==> a in keys && InTree(addr, a))
    && (forall a :: a in keys <==> a in oldKeys && (a in pending || !InTree(addr, a)))
    && (forall a :: a in order <==> a in oldKeys && InTree(addr, a) && a !in pending)
    && (forall i, b :: 0 <= i < |order| && b in keys ==> !IsAncestor(order[i], b))
    && (forall i, j :: 0 <= i < j < |order| ==> order[i] != order[j] && !IsAncestor(order[i], order[j]))
  }

  /** Removing the deepest pending address keeps the kill bookkeeping. */
  lemma KillStep(addr: Address, oldKeys: set<Address>, keys: set<Address>,
                 pending: set<Address>, order: seq<Address>, x: Address)
    requires KillInv(addr, oldKeys, keys, pending, order)
    requires x in pending && forall y :: y in pending ==> Measure(y) <= Measure(x)
    ensures KillInv(addr, oldKeys, keys - {x}, pending - {x}, order + [x])
  {
    NothingBelowDeepest(addr, x, pending, keys);
    var order' := order + [x];
    forall i, j | 0 <= i < j < |order'|
      ensures order'[i] != order'[j] && !IsAncestor(order'[i], order'[j])
    {
      if j == |order| {
        assert order'[i] == order[i];
        assert x in keys;
      }
    }
    forall i, b | 0 <= i < |order'| && b in keys - {x}
      ensures !IsAncestor(order'[i], b)
    {
      if i < |order| {
        assert order'[i] == order[i];
      }
    }
  }

  /** Before the first removal: everything of the subtree is pending. */
  lemma KillStart(addr: Address, keys: set<Address>)
    ensures KillInv(addr, keys, keys, set a | a in keys && InTree(addr, a), [])
  {
  }

  /** Once nothing is pending, exactly the subtree is gone and `order`
      lists it. */
  lemma KillDone(addr: Address, oldKeys: set<Address>, keys: set<Address>, order: seq<Address>)
    requires KillInv(addr, oldKeys, keys, {}, order)
    ensures forall a :: a in keys <==> a in oldKeys && !InTree(addr, a)
    ensures forall a :: a in order <==> a in oldKeys && InTree(addr, a)
    ensures forall i, j :: 0 <= i < j < |order| ==> order[i] != order[j] && !IsAncestor(order[i], order[j])
  {
  }

  class PVM {
    /** The state table: one runtime per actor address. */
    var runtimes: map<Address, Runtime>
    /** Routes: target address to router address. */
    var routers: map<Address, Address>
    /** Groups: group name to member addresses. */
    var groups: map<string, seq<Address>>
    /** Scripts ready to run, oldest first. */
    var runQ: seq<Slot>
    /** Scripts of runtimes waiting for an async task to settle. */
    var waitQ: seq<Slot>
    /** Addresses whose runtime awaits an async task. */
    var blocked: seq<Address>
    var running: bool

    /** Every runtime in the table sits at its own address and belongs to
        this platform. */
    ghost predicate Valid()
      reads this
    {
      forall a :: a in runtimes ==> runtimes[a].address == a && runtimes[a].vm == this
    }

    /** A new platform: an empty state table and empty queues. */
    constructor ()
      ensures Valid()
      ensures runtimes == map[] && routers == map[] && groups == map[]
      ensures runQ == [] && waitQ == [] && blocked == [] && !running
    {
      runtimes := map[];
      routers := map[];
      groups := map[];
      runQ := [];
      waitQ := [];
      blocked := [];
      running := false;
    }

    /** `allocate`: a new runtime and context for the child `t.id` of
        `parent`. It is an error if a runtime is already allocated at that
        address; then nothing changes. */
    method Allocate(parent: Address, t: Template.Template, actor: Instance) returns (r: Either<Err, Address>)
      requires Valid()
      modifies this
      ensures Valid()
      ensures var addr := Make(parent, t.id);
              addr in old(runtimes) ==> r.Left? && runtimes == old(runtimes)
      ensures var addr := Make(parent, t.id);
              addr !in old(runtimes) ==>
                && r == Right(addr)
                && runtimes.Keys == old(runtimes).Keys + {addr}
                && fresh(runtimes[addr]) && fresh(runtimes[addr].context)
                && runtimes[addr].context.actor == actor && runtimes[addr].context.template == t
                && runtimes[addr].context.mailbox == [] && runtimes[addr].context.flags == 0
                && forall a :: a in old(runtimes) ==> runtimes[a] == old(runtimes)[a]
      ensures routers == old(routers) && groups == old(groups)
      ensures runQ == old(runQ) && waitQ == old(waitQ) && blocked == old(blocked) && running == old(running)
    {
      var addr := Make(parent, t.id);
      if addr in runtimes {
        r := Left(Err("duplicate address: " + addr));
        return;
      }
      var ctx := new RuntimeContext.Context(actor, t, 0);
      var rt := new Runtime(addr, this, ctx);
      runtimes := runtimes[addr := rt];
      r := Right(addr);
    }

    /** `runActor`: an error exactly when the target does not exist. */
    method RunActor(target: Address) returns (r: Either<Err, Unit>)
      ensures r.Left? <==> target !in runtimes
    {
      if target in runtimes {
        r := Right(Unit);
      } else {
        r := Left(Err("unknown actor: " + target));
      }
    }

    /** `sendMessage`: true exactly when the target is in the system. A
        buffered target gets the message at the end of its mailbox; an
        unbuffered one accepts it directly, leaving the mailbox alone. */
    method SendMessage(to: Address, from: Address, m: Message) returns (ok: bool)
      modifies if to in runtimes then {runtimes[to].context} else {}
      ensures ok <==> to in runtimes
      ensures ok && IsBuffered(runtimes[to].context.flags) ==>
                runtimes[to].context.mailbox == old(runtimes[to].context.mailbox) + [m]
      ensures ok && !IsBuffered(runtimes[to].context.flags) ==>
                runtimes[to].context.mailbox == old(runtimes[to].context.mailbox)
      ensures ok ==> runtimes[to].context.flags == old(runtimes[to].context.flags)
                     && runtimes[to].context.receivers == old(runtimes[to].context.receivers)
                     && runtimes[to].context.behaviour == old(runtimes[to].context.behaviour)
    {
      if to !in runtimes {
        return false;
      }
      var c := runtimes[to].context;
      if IsBuffered(c.flags) {
        c.mailbox := c.mailbox + [m];
      }
      ok := true;
    }

    /** `getRuntime`: the runtime at `addr`, if there is one. */
    function GetRuntime(addr: Address): (r: Option<Runtime>)
      reads this
      ensures r.Some? <==> addr in runtimes
      ensures r.Some? ==> r.value == runtimes[addr]
    {
      if addr in runtimes then Some(runtimes[addr]) else None
    }

    /** `getRouter`: the runtime of the router for `addr`, if a route
        covers `addr` and its router is allocated. */
    function GetRouter(addr: Address): (r: Option<Runtime>)
      reads this
      ensures r.Some? <==> FindRoute(routers, addr).Some? && FindRoute(routers, addr).value in runtimes
      ensures r.Some? ==> r.value == runtimes[FindRoute(routers, addr).value]
    {
      match FindRoute(routers, addr)
      case None => None
      case Some(router) => GetRuntime(router)
    }

    /** `getGroup`: the members of group `name`, if it exists. */
    function GetGroup(name: string): (r: Option<seq<Address>>)
      reads this
      ensures r.Some? <==> name in groups
      ensures r.Some? ==> r.value == groups[name]
    {
      if name in groups then Some(groups[name]) else None
    }

    /** `getChildren`: exactly the runtimes strictly under `addr`. */
    function GetChildren(addr: Address): (r: map<Address, Runtime>)
      reads this
      ensures forall a :: a in r <==> a in runtimes && IsAncestor(addr, a)
      ensures forall a :: a in r ==> r[a] == runtimes[a]
    {
      map a | a in runtimes && IsAncestor(addr, a) :: runtimes[a]
    }

    /** `putRuntime`: stores `rt` at `addr`, leaving every other entry. */
    method PutRuntime(addr: Address, rt: Runtime)
      modifies this
      ensures runtimes == old(runtimes)[addr := rt]
      ensures routers == old(routers) && groups == old(groups)
      ensures runQ == old(runQ) && waitQ == old(waitQ) && blocked == old(blocked) && running == old(running)
      ensures old(Valid()) && rt.address == addr && rt.vm == this ==> Valid()
    {
      runtimes := runtimes[addr := rt];
    }

    /** `putRoute`: routes everything under `target` to `router`. */
    method PutRoute(target: Address, router: Address)
      modifies this
      ensures routers == old(routers)[target := router]
      ensures runtimes == old(runtimes) && groups == old(groups)
      ensures runQ == old(runQ) && waitQ == old(waitQ) && blocked == old(blocked) && running == old(running)
    {
      routers := routers[target := router];
    }

    /** `putMember`: adds `addr` at the end of `group`, creating the group
        when it does not exist. */
    method PutMember(group: string, addr: Address)
      modifies this
      ensures groups == old(groups)[group := (if group in old(groups) then old(groups)[group] else []) + [addr]]
      ensures runtimes == old(runtimes) && routers == old(routers)
      ensures runQ == old(runQ) && waitQ == old(waitQ) && blocked == old(blocked) && running == old(running)
    {
      var members := if group in groups then groups[group] else [];
      groups := groups[group := members + [addr]];
    }

    /** `remove`: drops the runtime at `addr` and nothing else. */
    method Remove(addr: Address)
      modifies this
      ensures runtimes == old(runtimes) - {addr}
      ensures routers == old(routers) && groups == old(groups)
      ensures runQ == old(runQ) && waitQ == old(waitQ) && blocked == old(blocked) && running == old(running)
      ensures old(Valid()) ==> Valid()
    {
      runtimes := runtimes - {addr};
    }

    /** `removeRoute`: drops the route at `target` and nothing else. */
    method RemoveRoute(target: Address)
      modifies this
      ensures routers == old(routers) - {target}
      ensures runtimes == old(runtimes) && groups == old(groups)
      ensures runQ == old(runQ) && waitQ == old(waitQ) && blocked == old(blocked) && running == old(running)
    {
      routers := routers - {target};
    }

    /** `kill`: terminates `addr` and every runtime under it, deepest
        first, so a runtime goes only after everything below it. Returns
        the addresses in the order they were removed. */
    method Kill(addr: Address) returns (order: seq<Address>)
      requires Valid()
      modifies this
      ensures Valid()
      ensures forall a :: a in runtimes <==> a in old(runtimes) && !InTree(addr, a)
      ensures forall a :: a in runtimes ==> runtimes[a] == old(runtimes)[a]
      ensures forall a :: a in order <==> a in old(runtimes) && InTree(addr, a)
      ensures forall i, j :: 0 <= i < j < |order| ==> order[i] != order[j] && !IsAncestor(order[i], order[j])
      ensures routers == old(routers) && groups == old(groups)
      ensures runQ == old(runQ) && waitQ == old(waitQ) && blocked == old(blocked) && running == old(running)
    {
      order := [];
      var table := runtimes;
      var pending := set a | a in table && InTree(addr, a);
      KillStart(addr, table.Keys);
      while pending != {}
        invariant KillInv(addr, runtimes.Keys, table.Keys, pending, order)
        invariant forall a :: a in table ==> table[a] == runtimes[a]
        modifies {}
        decreases |pending|
      {
        DeepestExists(pending);
        var x :| x in pending && forall y :: y in pending ==> Measure(y) <= Measure(x);
        KillStep(addr, runtimes.Keys, table.Keys, pending, order, x);
        assert (table - {x}).Keys == table.Keys - {x};
        table := table - {x};
        pending := pending - {x};
        order := order + [x];
      }
      KillDone(addr, runtimes.Keys, table.Keys, order);
      runtimes := table;
    }

    /** `spawn`: allocates `t` directly under the root. */
    method Spawn(t: Template.Template, actor: Instance) returns (r: Either<Err, Address>)
      requires Valid()
      modifies this
      ensures Valid()
      ensures r.Right? ==> r.right == Make(ROOT, t.id) && Make(ROOT, t.id) !in old(runtimes)
                           && r.right in runtimes
      ensures r.Right? && !IsRestricted(t.id) ==> GetParent(r.right) == ROOT
      ensures r.Left? <==> Make(ROOT, t.id) in old(runtimes)
    {
      r := Allocate(ROOT, t, actor);
      if !IsRestricted(t.id) {
        ParentOfChild(ROOT, t.id);
      }
    }

    /** `exec`: queues a script for the runtime at `addr`. */
    method Exec(addr: Address, s: Script.Script)
      modifies this
      ensures runQ == old(runQ) + [Slot(addr, s)]
      ensures waitQ == old(waitQ) && blocked == old(blocked) && running == old(running)
      ensures runtimes == old(runtimes) && routers == old(routers) && groups == old(groups)
    {
      runQ := runQ + [Slot(addr, s)];
    }

    /** `runTask`: the runtime at `addr` now awaits an async task. */
    method RunTask(addr: Address)
      modifies this
      ensures addr in blocked
      ensures forall b :: b in blocked <==> b in old(blocked) || b == addr
      ensures runQ == old(runQ) && waitQ == old(waitQ) && running == old(running)
      ensures runtimes == old(runtimes) && routers == old(routers) && groups == old(groups)
    {
      if addr !in blocked {
        blocked := blocked + [addr];
      }
    }

    /** One turn of the main loop: takes the oldest ready slot. A slot
        whose runtime awaits a task is parked on the wait queue instead of
        being handed out, so no script of a blocked runtime runs. */
    method Next() returns (r: Option<Slot>)
      modifies this
      ensures old(runQ) == [] ==> r.None? && runQ == [] && waitQ == old(waitQ)
      ensures old(runQ) != [] ==> runQ == old(runQ)[1..]
      ensures old(runQ) != [] && old(runQ)[0].address in blocked ==>
                r.None? && waitQ == old(waitQ) + [old(runQ)[0]]
      ensures old(runQ) != [] && old(runQ)[0].address !in blocked ==>
                r == Some(old(runQ)[0]) && waitQ == old(waitQ)
      ensures r.Some? ==> r.value.address !in blocked
      ensures blocked == old(blocked) && running == old(running)
      ensures runtimes == old(runtimes) && routers == old(routers) && groups == old(groups)
    {
      if runQ == [] {
        return None;
      }
      var s := runQ[0];
      runQ := runQ[1..];
      if s.address in blocked {
        waitQ := waitQ + [s];
        r := None;
      } else {
        r := Some(s);
      }
    }

    /** The task of the runtime at `addr` settled: it is unblocked and its
        parked slots go, in order, to the tail of the run queue. */
    method Settle(addr: Address)
      modifies this
      ensures blocked == Unblock(old(blocked), addr)
      ensures runQ == old(runQ) + SlotsOf(old(waitQ), addr)
      ensures waitQ == SlotsNotOf(old(waitQ), addr)
      ensures multiset(runQ) + multiset(waitQ) == multiset(old(runQ)) + multiset(old(waitQ))
      ensures running == old(running)
      ensures runtimes == old(runtimes) && routers == old(routers) && groups == old(groups)
    {
      var mine := SlotsOf(waitQ, addr);
      var rest := SlotsNotOf(waitQ, addr);
      SplitKeepsSlots(waitQ, addr);
      assert multiset(runQ + mine) + multiset(rest) == multiset(runQ) + multiset(waitQ);
      blocked := Unblock(blocked, addr);
      runQ := runQ + mine;
      waitQ := rest;
    }

    /** `start`: the main loop runs. */
    method Start()
      modifies this
      ensures running
      ensures runQ == old(runQ) && waitQ == old(waitQ) && blocked == old(blocked)
      ensures runtimes == old(runtimes) && routers == old(routers) && groups == old(groups)
    {
      running := true;
    }

    /** `stop`: the loop halts; no pending slot is discarded. */
    method Stop()
      modifies this
      ensures !running
      ensures runQ == old(runQ) && waitQ == old(waitQ) && blocked == old(blocked)
      ensures runtimes == old(runtimes) && routers == old(routers) && groups == old(groups)
    {
      running := false;
    }
  }

  class Runtime {
    const address: Address
    const vm: PVM
    const context: RuntimeContext.Context

    constructor (address: Address, vm: PVM, context: RuntimeContext.Context)
      ensures this.address == address && this.vm == vm && this.context == context
    {
      this.address := address;
      this.vm := vm;
      this.context := context;
    }

    /** `terminate`: this runtime and all its children leave the platform,
        children first. */
    method Terminate() returns (order: seq<Address>)
      requires vm.Valid()
      modifies vm
      ensures vm.Valid()
      ensures forall a :: a in vm.runtimes <==> a in old(vm.runtimes) && !InTree(address, a)
      ensures forall a :: a in vm.runtimes ==> vm.runtimes[a] == old(vm.runtimes)[a]
      ensures forall a :: a in order <==> a in old(vm.runtimes) && InTree(address, a)
      ensures forall i, j :: 0 <= i < j < |order| ==> order[i] != order[j] && !IsAncestor(order[i], order[j])
      ensures vm.routers == old(vm.routers) && vm.groups == old(vm.groups)
      ensures vm.runQ == old(vm.runQ) && vm.waitQ == old(vm.waitQ)
      ensures vm.blocked == old(vm.blocked) && vm.running == old(vm.running)
    {
      order := vm.Kill(address);
    }

    /** `kill`: terminates `target` and its children, but fails, changing
        nothing, when `target` is not in this actor's tree. */
    method Kill(target: Address) returns (r: Either<Err, Unit>)
      requires vm.Valid()
      modifies vm
      ensures vm.Valid()
      ensures r.Left? <==> !InTree(address, target)
      ensures r.Left? ==> vm.runtimes == old(vm.runtimes)
      ensures r.Right? ==> forall a :: a in vm.runtimes <==> a in old(vm.runtimes) && !InTree(target, a)
      ensures forall a :: a in vm.runtimes ==> vm.runtimes[a] == old(vm.runtimes)[a]
      ensures vm.routers == old(vm.routers) && vm.groups == old(vm.groups)
      ensures vm.runQ == old(vm.runQ) && vm.waitQ == old(vm.waitQ)
      ensures vm.blocked == old(vm.blocked) && vm.running == old(vm.running)
    {
      if !InTree(address, target) {
        return Left(Err("IllegalKillSignal: " + target));
      }
      var _ := vm.Kill(target);
      r := Right(Unit);
    }

    /** `runTask`: the runtime awaits an async task. */
    method RunTask()
      modifies vm
      ensures address in vm.blocked
      ensures forall b :: b in vm.blocked <==> b in old(vm.blocked) || b == address
      ensures vm.runQ == old(vm.runQ) && vm.waitQ == old(vm.waitQ) && vm.running == old(vm.running)
      ensures vm.runtimes == old(vm.runtimes) && vm.routers == old(vm.routers) && vm.groups == old(vm.groups)
    {
      vm.RunTask(address);
    }

    /** `exec`: while a task is pending nothing runs; otherwise the script
        runs over this actor's mailbox and receivers, which take the
        values the run leaves, and the top of the stack is the result. */
    method Exec(sc: Script.Script, o: Machine.Oracles, fuel: nat) returns (r: Option<Script.Value>)
      modifies context
      ensures address in vm.blocked ==>
                r.None? && context.mailbox == old(context.mailbox) && context.receivers == old(context.receivers)
      ensures address !in vm.blocked ==>
                var m := Machine.Run(sc, o, Machine.Init(Some(old(context.mailbox)), old(context.receivers)), fuel);
                && Some(context.mailbox) == m.mailbox
                && context.receivers == m.receivers
                && r == (if m.stack == [] then None else Some(m.stack[|m.stack| - 1]))
      ensures context.flags == old(context.flags) && context.behaviour == old(context.behaviour)
    {
      if address in vm.blocked {
        return None;
      }
      var m := Machine.Execute(sc, o, Some(context.mailbox), context.receivers, fuel);
      Machine.MailboxStaysPresent(sc, o, Machine.Init(Some(context.mailbox), context.receivers), fuel);
      context.mailbox := m.mailbox.value;
      context.receivers := m.receivers;
      r := if m.stack == [] then None else Some(m.stack[|m.stack| - 1]);
    }
  }
}
