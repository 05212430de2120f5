/** The primary node's books about the executors of the cluster. */
module ClusterMembers {
  const ID_MOD: nat := 0x1_0000_0000

  datatype Node = Node(id: nat, address: string)

  datatype Op = Join(address: string) | Leave(id: nat)

  /** The live executors with their addresses, and the number of registrations so far. */
  datatype Members = Members(live: map<nat, string>, count: nat)

  /** The identifier of the next executor; the counter has 32 bits. */
  function NextId(m: Members): nat {
    (m.count + 1) % ID_MOD
  }

  function Apply(m: Members, op: Op): Members {
    match op
    case Join(a) => Members(m.live[NextId(m) := a], m.count + 1)
    case Leave(id) => Members(m.live - {id}, m.count)
  }

  /** A registration brings an address that is not live and meets an identifier that is not; only live
      executors leave. */
  predicate Proper(m: Members, op: Op) {
    match op
    case Join(a) => a !in m.live.Values && NextId(m) !in m.live
    case Leave(id) => id in m.live
  }

  function Without(nodes: seq<Node>, id: nat): seq<Node> {
    if nodes == [] then []
    else
      var last := nodes[|nodes| - 1];
      Without(nodes[..|nodes| - 1], id) + if last.id == id then [] else [last]
  }

  lemma {:induction false} WithoutMembers(nodes: seq<Node>, id: nat)
    ensures forall n :: n in Without(nodes, id) <==> n in nodes && n.id != id
  {
    if nodes != [] {
      WithoutMembers(nodes[..|nodes| - 1], id);
      assert nodes == nodes[..|nodes| - 1] + [nodes[|nodes| - 1]];
    }
  }

  ghost predicate DistinctIds(nodes: seq<Node>) {
    forall i, j :: 0 <= i < j < |nodes| ==> nodes[i].id != nodes[j].id
  }

  lemma {:induction false} WithoutDistinct(nodes: seq<Node>, id: nat)
    requires DistinctIds(nodes)
    ensures DistinctIds(Without(nodes, id))
  {
    if nodes != [] {
      var front := nodes[..|nodes| - 1];
      WithoutDistinct(front, id);
      WithoutMembers(front, id);
    }
  }

  /** The primary's fields: the list of executors, the maps by identifier and by address, and the
      connection to each executor with the address it was opened for. */
  datatype Books = Books(executors: seq<Node>, idMap: map<nat, Node>, addressMap: map<string, Node>,
                         clientConn: map<nat, string>, idCounter: nat)

  ghost predicate ListAgrees(executors: seq<Node>, live: map<nat, string>) {
    && DistinctIds(executors)
    && (forall n :: n in executors ==> n.id in live && live[n.id] == n.address)
    && (forall id :: id in live ==> Node(id, live[id]) in executors)
  }

  ghost predicate IdsAgree(idMap: map<nat, Node>, live: map<nat, string>) {
    idMap.Keys == live.Keys && forall id :: id in live ==> idMap[id] == Node(id, live[id])
  }

  ghost predicate AddressesAgree(addressMap: map<string, Node>, live: map<nat, string>) {
    && (forall id :: id in live ==> live[id] in addressMap && addressMap[live[id]] == Node(id, live[id]))
    && (forall a :: a in addressMap ==> addressMap[a].id in live && live[addressMap[a].id] == a)
  }

  /** All books describe the same executors. */
  ghost predicate Agree(b: Books, m: Members) {
    && b.idCounter == m.count % ID_MOD
    && ListAgrees(b.executors, m.live)
    && IdsAgree(b.idMap, m.live)
    && AddressesAgree(b.addressMap, m.live)
    && b.clientConn == m.live
  }

  /** Insertion into a map keeps an entry that is there. */
  function Inserted<K, V>(m: map<K, V>, k: K, v: V): map<K, V> {
    if k in m then m else m[k := v]
  }

  function Registered(b: Books, address: string): Books {
    var id := (b.idCounter + 1) % ID_MOD;
    var node := Node(id, address);
    Books(b.executors + [node], Inserted(b.idMap, id, node), Inserted(b.addressMap, address, node),
          Inserted(b.clientConn, id, address), id)
  }

  function Deregistered(b: Books, id: nat): Books
    requires id in b.idMap
  {
    Books(Without(b.executors, id), b.idMap - {id}, b.addressMap - {b.idMap[id].address},
          b.clientConn - {id}, b.idCounter)
  }

  lemma CounterNext(m: Members, c: nat)
    requires c == m.count % ID_MOD
    ensures (c + 1) % ID_MOD == NextId(m)
  {
  }

  lemma ListJoin(executors: seq<Node>, live: map<nat, string>, id: nat, a: string)
    requires ListAgrees(executors, live)
    ensures ListAgrees(executors + [Node(id, a)], live[id := a]) <==> id !in live
  {
    var more := executors + [Node(id, a)];
    if id in live {
      var was := Node(id, live[id]);
      assert was in executors;
      var i :| 0 <= i < |executors| && executors[i] == was;
      assert more[i].id == more[|executors|].id;
    } else {
      forall n | n in live ensures Node(n, live[n]) in more {
        assert Node(n, live[n]) in executors;
      }
      assert more[|executors|] == Node(id, a);
      forall i | 0 <= i < |executors| ensures more[i].id != id {
        assert executors[i] in executors;
      }
    }
  }

  lemma AddressesJoin(addressMap: map<string, Node>, live: map<nat, string>, id: nat, a: string)
    requires AddressesAgree(addressMap, live) && id !in live
    ensures AddressesAgree(Inserted(addressMap, a, Node(id, a)), live[id := a]) <==> a !in live.Values
  {
    forall b | b in addressMap ensures b in live.Values {
      assert live[addressMap[b].id] == b;
    }
    if a in live.Values {
      var other :| other in live && live[other] == a;
      var more := live[id := a];
      assert more[other] == a && more[id] == a;
    }
  }

  /** A registration keeps the books in agreement exactly if its address and identifier are new. */
  lemma RegisterIff(b: Books, m: Members, address: string)
    requires Agree(b, m)
    ensures Agree(Registered(b, address), Apply(m, Join(address))) <==> Proper(m, Join(address))
  {
    hide ListAgrees, AddressesAgree;
    CounterNext(m, b.idCounter);
    ListJoin(b.executors, m.live, NextId(m), address);
    if NextId(m) !in m.live {
      AddressesJoin(b.addressMap, m.live, NextId(m), address);
    }
  }

  lemma ListLeave(executors: seq<Node>, live: map<nat, string>, id: nat)
    requires ListAgrees(executors, live)
    ensures ListAgrees(Without(executors, id), live - {id})
  {
    WithoutMembers(executors, id);
    WithoutDistinct(executors, id);
  }

  /** The departure of a live executor keeps the books in agreement. */
  lemma DeregisterKeeps(b: Books, m: Members, id: nat)
    requires Agree(b, m) && id in m.live
    ensures id in b.idMap && Agree(Deregistered(b, id), Apply(m, Leave(id)))
  {
    hide ListAgrees;
    ListLeave(b.executors, m.live, id);
  }

  // Whole histories.

  function Replay(ops: seq<Op>): Members {
    if ops == [] then Members(map[], 0) else Apply(Replay(ops[..|ops| - 1]), ops[|ops| - 1])
  }

  /** At every registration the address is not live, and only live executors leave. */
  ghost predicate DistinctAddresses(ops: seq<Op>) {
    forall i :: 0 <= i < |ops| ==> AddressFits(Replay(ops[..i]), ops[i])
  }

  predicate AddressFits(m: Members, op: Op) {
    match op
    case Join(a) => a !in m.live.Values
    case Leave(id) => id in m.live
  }

  lemma {:induction false} CountGrows(ops: seq<Op>, i: nat)
    requires i <= |ops|
    ensures Replay(ops[..i]).count <= Replay(ops).count
    decreases |ops|
  {
    if i == |ops| {
      assert ops[..i] == ops;
    } else {
      CountGrows(ops[..|ops| - 1], i);
      assert ops[..|ops| - 1][..i] == ops[..i];
    }
  }

  /** Live identifiers have been given out, so before the counter goes around the next one is new. */
  lemma {:induction false} LiveAreIssued(ops: seq<Op>, id: nat)
    requires id in Replay(ops).live && Replay(ops).count <= ID_MOD
    ensures 1 <= id <= Replay(ops).count || (id == 0 && Replay(ops).count == ID_MOD)
    decreases |ops|
  {
    var front := ops[..|ops| - 1];
    var last := ops[|ops| - 1];
    if last.Join? && id == NextId(Replay(front)) {
      ModSmall(Replay(front).count + 1);
    } else {
      LiveAreIssued(front, id);
    }
  }

  lemma NextIdIsNew(ops: seq<Op>)
    requires Replay(ops).count < ID_MOD
    ensures NextId(Replay(ops)) !in Replay(ops).live
  {
    ModSmall(Replay(ops).count + 1);
    if NextId(Replay(ops)) in Replay(ops).live {
      LiveAreIssued(ops, NextId(Replay(ops)));
    }
  }

  /** With distinct live addresses and at most 2^32 registrations every operation is proper. */
  lemma HistoryIsProper(ops: seq<Op>, i: nat)
    requires DistinctAddresses(ops) && Replay(ops).count <= ID_MOD && i < |ops|
    ensures Proper(Replay(ops[..i]), ops[i])
  {
    assert AddressFits(Replay(ops[..i]), ops[i]);
    if ops[i].Join? {
      CountGrows(ops, i + 1);
      assert ops[..i + 1][..i] == ops[..i];
      NextIdIsNew(ops[..i]);
    }
  }

  /** The identifiers given out, in order. */
  function Issued(ops: seq<Op>): seq<nat> {
    if ops == [] then []
    else
      var front := ops[..|ops| - 1];
      Issued(front) + if ops[|ops| - 1].Join? then [NextId(Replay(front))] else []
  }

  lemma {:induction false} IssuedAre(ops: seq<Op>)
    ensures |Issued(ops)| == Replay(ops).count
    ensures forall i :: 0 <= i < |Issued(ops)| ==> Issued(ops)[i] == (i + 1) % ID_MOD
  {
    if ops != [] {
      IssuedAre(ops[..|ops| - 1]);
    }
  }

  lemma ModSmall(x: nat)
    requires x <= ID_MOD
    ensures x % ID_MOD == if x == ID_MOD then 0 else x
  {
  }

  /** No identifier is ever given out twice, exactly as long as the counter has not gone around. */
  lemma IdsNeverReusedIff(ops: seq<Op>)
    ensures (forall i, j :: 0 <= i < j < |Issued(ops)| ==> Issued(ops)[i] != Issued(ops)[j])
            <==> Replay(ops).count <= ID_MOD
  {
    IssuedAre(ops);
    var ids := Issued(ops);
    if |ids| <= ID_MOD {
      forall i, j | 0 <= i < j < |ids| ensures ids[i] != ids[j] {
        ModSmall(i + 1);
        ModSmall(j + 1);
      }
    } else {
      assert ids[0] == 1 && ids[ID_MOD] == (ID_MOD + 1) % ID_MOD == 1;
    }
  }

  class Control {
    var executors: seq<Node>
    var idMap: map<nat, Node>
    var addressMap: map<string, Node>
    var clientConn: map<nat, string>
    var idCounter: nat

    ghost function Abs(): Books
      reads this
    {
      Books(executors, idMap, addressMap, clientConn, idCounter)
    }

    constructor ()
      ensures Agree(Abs(), Replay([]))
    {
      executors, idMap, addressMap, clientConn, idCounter := [], map[], map[], map[], 0;
    }

    method Register(address: string) returns (id: nat)
      modifies this
      ensures Abs() == Registered(old(Abs()), address) && id == idCounter
    {
      idCounter := (idCounter + 1) % ID_MOD;
      id := idCounter;
      executors := executors + [Node(id, address)];
      var node := executors[|executors| - 1];
      if id !in idMap {
        idMap := idMap[id := node];
      }
      if address !in addressMap {
        addressMap := addressMap[address := node];
      }
      if id !in clientConn {
        clientConn := clientConn[id := address];
      }
    }

    /** The list is filtered in place. */
    method Deregister(id: nat)
      requires id in idMap
      modifies this
      ensures Abs() == Deregistered(old(Abs()), id)
    {
      clientConn := clientConn - {id};
      addressMap := addressMap - {idMap[id].address};
      var kept := [];
      assert executors[..0] == [];
      for i := 0 to |executors|
        invariant kept == Without(executors[..i], id)
      {
        assert executors[..i + 1][..i] == executors[..i];
        if executors[i].id != id {
          kept := kept + [executors[i]];
        }
      }
      assert executors[..|executors|] == executors;
      executors := kept;
      idMap := idMap - {id};
    }

    /** Over every history with distinct live addresses and at most 2^32 registrations the books agree. */
    method ReplayAll(ops: seq<Op>)
      requires Agree(Abs(), Replay([])) && DistinctAddresses(ops) && Replay(ops).count <= ID_MOD
      modifies this
      ensures Agree(Abs(), Replay(ops))
    {
      hide Agree, Registered, Deregistered, Apply, Proper, DistinctAddresses;
      assert ops[..0] == [];
      for i := 0 to |ops|
        invariant Agree(Abs(), Replay(ops[..i]))
      {
        assert ops[..i + 1][..i] == ops[..i];
        assert Replay(ops[..i + 1]) == Apply(Replay(ops[..i]), ops[i]);
        HistoryIsProper(ops, i);
        if ops[i].Join? {
          RegisterIff(Abs(), Replay(ops[..i]), ops[i].address);
          var id := Register(ops[i].address);
        } else {
          LeaveIsLive(Replay(ops[..i]), ops[i].id);
          DeregisterKeeps(Abs(), Replay(ops[..i]), ops[i].id);
          Deregister(ops[i].id);
        }
      }
      assert ops[..|ops|] == ops;
    }
  }

  lemma LeaveIsLive(m: Members, id: nat)
    requires Proper(m, Leave(id))
    ensures id in m.live
  {
  }
}
