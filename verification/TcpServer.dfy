/** `TcpServer` as an object on its own loop; the entries stand for the connections and their loops' queues. */
module TcpServerImpl {
  import opened TcpConnectionSpec
  import opened ConnNames
  import T = Teardown

  class TcpServer {
    const name: string
    const ipPort: string
    var nextConnId: nat
    var connections: map<string, T.Id>
    var conns: map<T.Id, T.Entry>
    ghost var handling: set<T.LoopId>

    ghost function View(): T.State
      reads this
    {
      T.State(name, ipPort, nextConnId, connections, conns, handling)
    }

    ghost predicate Valid()
      reads this
    {
      T.Inv(View())
    }

    constructor (name: string, addr: SockAddr, size: BufferSize)
      ensures Valid() && View() == T.Init(name, addr, size)
    {
      T.InitInv(name, addr, size);
      this.name, ipPort := name, ToIpPort(addr, size);
      nextConnId, connections, conns, handling := 1, map[], map[], {};
    }

    /** `newConnection` on the loop the thread pool chose; no other connection loses its map entry. */
    method NewConnection(loop: T.LoopId, mark: nat) returns (id: T.Id)
      requires Valid() && nextConnId < INT_MAX
      modifies this
      ensures Valid() && View() == T.Next(old(View()), T.Accept(loop, mark))
      ensures id !in old(conns) && T.InMap(View(), id)
      ensures forall other :: other in old(conns) && T.InMap(old(View()), other) ==> T.InMap(View(), other)
    {
      T.AcceptKeepsInv(View(), loop, mark);
      ghost var before := View();
      id := nextConnId;
      assert id in conns ==> T.Fine(before, id);
      var connName := Name(name, ipPort, id);
      nextConnId := nextConnId + 1;
      connections := connections[connName := id];
      var entry := T.Entry(New(mark), loop, map[], false, 0, 0, false, false, false);
      if loop == T.SERVER_LOOP {
        entry := entry.(conn := Next(entry.conn, Establish));
      } else {
        entry := T.Queue(entry, T.EstablishTask, 1);
      }
      conns := conns[id := entry];
      assert View() == T.OnAccept(before, loop, mark);
      forall other | other in before.conns && T.InMap(before, other) ensures T.InMap(View(), other) {
        assert T.Fine(before, other);
        NamesDiffer(name, ipPort, other, id);
      }
    }

    /** The erase of `removeConnectionInLoop`; `n` is its result. */
    method Erase(connName: string) returns (n: nat)
      modifies this`connections
      ensures n == (if connName in old(connections) then 1 else 0)
      ensures n == |old(connections)| - |connections| && connections == old(connections) - {connName}
    {
      if connName in connections {
        T.EraseShrinks(connections, connName);
        n := 1;
      } else {
        assert connections - {connName} == connections;
        n := 0;
      }
      connections := connections - {connName};
    }

    /** `removeConnectionInLoop` as a queued functor: the erase it asserts to be 1 is 1. */
    method RemoveConnectionInLoop(id: T.Id) returns (n: nat)
      requires Valid() && T.Enabled(View(), T.Run(id, T.RemoveTask))
      modifies this
      ensures n == 1 && T.AssertsHold(old(View()), T.Run(id, T.RemoveTask))
      ensures Valid() && View() == T.Next(old(View()), T.Run(id, T.RemoveTask))
    {
      T.StepKeepsInv(View(), T.Run(id, T.RemoveTask));
      T.RemoveStep(View(), id);
      n := Erase(Name(name, ipPort, id));
      var entry := T.Dequeue(conns[id], T.RemoveTask);
      conns := conns[id := T.Queue(entry.(erased := entry.erased + 1), T.DestroyTask, 1)];
    }

    /** `removeConnection` from the close callback: at once on the server's loop, else queued. */
    method RemoveConnection(id: T.Id) returns (n: nat)
      requires id in conns && T.InMap(View(), id)
      modifies this`connections, this`conns
      ensures View() == T.Put(old(View()), id, T.Closed(old(conns[id])))
      ensures n == (if old(conns[id]).loop == T.SERVER_LOOP then 1 else 0)
    {
      n := 0;
      var entry := conns[id];
      if entry.loop == T.SERVER_LOOP {
        n := Erase(Name(name, ipPort, id));
        conns := conns[id := T.Queue(entry.(erased := entry.erased + 1), T.DestroyTask, 1)];
      } else {
        conns := conns[id := T.Queue(entry, T.RemoveTask, 1)];
      }
    }
  }
}
