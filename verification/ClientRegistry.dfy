/** The list of device connections, shared by the accept thread, the command senders and a
    heartbeat that works on a copy of the list between two locked sections. */
module ClientRegistry {
  import opened Wrappers

  /** A connection and the address of its peer. */
  datatype Client = Client(id: int, address: string)

  // ---------- the list functions ----------

  function Without(clients: seq<Client>, doomed: Client -> bool): (kept: seq<Client>)
    ensures forall c :: c in kept <==> c in clients && !doomed(c)
    ensures |kept| <= |clients|
  {
    if clients == [] then [] else
      var last := clients[|clients| - 1];
      Without(clients[..|clients| - 1], doomed) + if doomed(last) then [] else [last]
  }

  /** No two connections have the same peer. */
  predicate UniqueAddresses(clients: seq<Client>) {
    forall i, j | 0 <= i < j < |clients| :: clients[i].address != clients[j].address
  }

  lemma {:induction false} WithoutKeepsUnique(clients: seq<Client>, doomed: Client -> bool)
    requires UniqueAddresses(clients)
    ensures UniqueAddresses(Without(clients, doomed))
  {
    if clients != [] {
      var init, last := clients[..|clients| - 1], clients[|clients| - 1];
      WithoutKeepsUnique(init, doomed);
      forall c | c in Without(init, doomed)
        ensures c.address != last.address
      {
        var i :| 0 <= i < |init| && init[i] == c;
        assert clients[i] == c;
      }
    }
  }

  /** Removing goes connection by connection and keeps the order. */
  lemma {:induction false} WithoutInOrder(before: seq<Client>, after: seq<Client>, doomed: Client -> bool)
    ensures Without(before + after, doomed) == Without(before, doomed) + Without(after, doomed)
    ensures |after| == 1 ==> Without(after, doomed) == if doomed(after[0]) then [] else after
  {
    hide Without;
    NobodyLeft(doomed);
    if after == [] {
      assert before + after == before;
    } else {
      var init, last := after[..|after| - 1], after[|after| - 1];
      assert (before + after)[..|before + after| - 1] == before + init;
      WithoutInOrder(before, init, doomed);
      WithoutSnoc(before + after, doomed);
      WithoutSnoc(after, doomed);
      if |after| == 1 {
        assert after == [last] && init == [];
      }
    }
  }

  lemma WithoutSnoc(clients: seq<Client>, doomed: Client -> bool)
    requires clients != []
    ensures var last := clients[|clients| - 1];
      Without(clients, doomed) == Without(clients[..|clients| - 1], doomed) + if doomed(last) then [] else [last]
  {
  }

  lemma NobodyLeft(doomed: Client -> bool)
    ensures Without([], doomed) == []
  {
  }

  // ---------- the steps ----------

  /** The registry and the copies that heartbeats hold. */
  datatype State = State(clients: seq<Client>, copies: seq<seq<Client>>)

  /** `connected` are the connections whose address can be asked for at that moment. */
  datatype Event =
    | Accept(client: Client, connected: set<Client>)
    | Remove(client: Client)
    | Snapshot
    | Ping(copy: nat, failed: set<Client>)
    | WriteBack(copy: nat)

  /** What an accepted connection drops: a connection without an address, or with its own. */
  function Superseded(client: Client, connected: set<Client>): Client -> bool {
    (c: Client) => c !in connected || c.address == client.address
  }

  function Accepted(clients: seq<Client>, client: Client, connected: set<Client>): seq<Client> {
    if client !in connected then clients
    else Without(clients, Superseded(client, connected)) + [client]
  }

  function Next(state: State, event: Event): State {
    match event
    case Accept(client, connected) => state.(clients := Accepted(state.clients, client, connected))
    case Remove(client) => state.(clients := Without(state.clients, c => c == client))
    case Snapshot => state.(copies := state.copies + [state.clients])
    case Ping(i, failed) =>
      if i < |state.copies| then
        state.(copies := state.copies[i := Without(state.copies[i], c => c in failed)])
      else state
    case WriteBack(i) =>
      if i < |state.copies| then state.(clients := state.copies[i]) else state
  }

  function Run(events: seq<Event>): State {
    if events == [] then State([], []) else Next(Run(events[..|events| - 1]), events[|events| - 1])
  }

  /** A connection that is accepted while it has an address joins the list at its end; of the others
      exactly those stay whose address can be asked for and is another one. */
  lemma AcceptKeeps(state: State, client: Client, connected: set<Client>, c: Client)
    ensures var clients := Next(state, Accept(client, connected)).clients;
      if client !in connected then clients == state.clients
      else
        && clients != [] && clients[|clients| - 1] == client
        && (c in clients <==> c == client || (c in state.clients && c in connected && c.address != client.address))
  {
    hide Without;
  }

  predicate Unique(state: State) {
    UniqueAddresses(state.clients) && forall copy | copy in state.copies :: UniqueAddresses(copy)
  }

  lemma AcceptedUnique(clients: seq<Client>, client: Client, connected: set<Client>)
    requires UniqueAddresses(clients)
    ensures UniqueAddresses(Accepted(clients, client, connected))
  {
    hide Without;
    WithoutKeepsUnique(clients, Superseded(client, connected));
    var kept := Without(clients, Superseded(client, connected));
    assert forall i | 0 <= i < |kept| :: kept[i] in kept;
  }

  lemma StepKeepsUnique(state: State, event: Event)
    requires Unique(state)
    ensures Unique(Next(state, event))
  {
    hide UniqueAddresses, Without, Accepted;
    match event
    case Accept(client, connected) => AcceptedUnique(state.clients, client, connected);
    case Remove(client) => WithoutKeepsUnique(state.clients, c => c == client);
    case Snapshot =>
    case Ping(i, failed) =>
      if i < |state.copies| {
        assert state.copies[i] in state.copies;
        WithoutKeepsUnique(state.copies[i], c => c in failed);
      }
    case WriteBack(i) =>
  }

  /** In every interleaving the list holds at most one connection for each address. */
  lemma {:induction false} RunsKeepUnique(events: seq<Event>)
    ensures Unique(Run(events))
  {
    hide Next, UniqueAddresses;
    if events == [] {
      NoClients();
    } else {
      RunsKeepUnique(events[..|events| - 1]);
      StepKeepsUnique(Run(events[..|events| - 1]), events[|events| - 1]);
    }
  }

  lemma NoClients()
    ensures UniqueAddresses([])
  {
  }

  /** Writing back a copy replaces the list whatever happened since: a connection is in it
      afterwards exactly when it was in the list at the snapshot and answered the ping. */
  lemma WriteBackForgets(events: seq<Event>, between: seq<Event>, between': seq<Event>,
                         failed: set<Client>, client: Client)
    requires forall e | e in between + between' :: e.Accept? || e.Remove?
    ensures var i := |Run(events).copies|;
      client in Run(events + [Snapshot] + between + [Ping(i, failed)] + between' + [WriteBack(i)]).clients
      <==> client in Run(events).clients && client !in failed
  {
    hide Next, Without;
    var i := |Run(events).copies|;
    var taken := events + [Snapshot];
    RunStep(events, Snapshot);
    SnapshotTakes(Run(events));
    CopiesStay(taken, between);
    var pinged := taken + between + [Ping(i, failed)];
    RunStep(taken + between, Ping(i, failed));
    PingPrunes(Run(taken + between), i, failed);
    CopiesStay(pinged, between');
    RunStep(pinged + between', WriteBack(i));
    WriteBackSets(Run(pinged + between'), i);
  }

  lemma RunStep(events: seq<Event>, event: Event)
    ensures Run(events + [event]) == Next(Run(events), event)
  {
    assert (events + [event])[..|events|] == events;
  }

  lemma SnapshotTakes(state: State)
    ensures Next(state, Snapshot) == state.(copies := state.copies + [state.clients])
  {
  }

  lemma PingPrunes(state: State, i: nat, failed: set<Client>)
    requires i < |state.copies|
    ensures var copies := Next(state, Ping(i, failed)).copies;
      && |copies| == |state.copies|
      && forall c :: c in copies[i] <==> c in state.copies[i] && c !in failed
  {
  }

  lemma WriteBackSets(state: State, i: nat)
    requires i < |state.copies|
    ensures Next(state, WriteBack(i)).clients == state.copies[i]
  {
  }

  lemma {:induction false} CopiesStay(events: seq<Event>, more: seq<Event>)
    requires forall e | e in more :: e.Accept? || e.Remove?
    ensures Run(events + more).copies == Run(events).copies
  {
    if more == [] {
      assert events + more == events;
    } else {
      var init, last := more[..|more| - 1], more[|more| - 1];
      assert more == init + [last] && last in more;
      assert events + more == (events + init) + [last];
      CopiesStay(events, init);
      RunStep(events + init, last);
      hide Run;
    }
  }

  // ---------- the registry object ----------

  class Registry {
    var clients: seq<Client>
    var copies: seq<seq<Client>>

    constructor ()
      ensures View() == State([], [])
    {
      clients, copies := [], [];
    }

    ghost function View(): State
      reads this
    {
      State(clients, copies)
    }

    /** `remove_if` on a list. */
    static method ClientsRemoveIf(clients: seq<Client>, doomed: Client -> bool) returns (kept: seq<Client>)
      ensures kept == Without(clients, doomed)
    {
      kept := [];
      for i := 0 to |clients|
        invariant kept == Without(clients[..i], doomed)
      {
        assert clients[..i + 1][..i] == clients[..i];
        if !doomed(clients[i]) {
          kept := kept + [clients[i]];
        }
      }
      assert clients[..|clients|] == clients;
    }

    /** Replace the connections of the same address; nothing happens when the new connection is
        gone already. */
    method NewClientNotify(client: Client, connected: set<Client>)
      modifies this
      ensures View() == Next(old(View()), Accept(client, connected))
      ensures client in connected ==> client in clients
    {
      hide Without;
      if client in connected {
        clients := ClientsRemoveIf(clients, Superseded(client, connected));
        clients := clients + [client];
      }
    }

    method RemoveDtsClient(client: Client)
      modifies this
      ensures View() == Next(old(View()), Remove(client))
      ensures client !in clients
    {
      hide Without;
      var doomed := c => c == client;
      clients := ClientsRemoveIf(clients, doomed);
      SameTest(old(clients), doomed, c => c == client);
    }

    /** The first connection of an address; asking a lost connection for its address fails. */
    method FindDtsClient(address: string, connected: set<Client>) returns (found: Option<Client>, failed: bool)
      ensures found.Some? ==> found.value in clients && found.value.address == address && !failed
      ensures found.None? && !failed ==> forall c | c in clients :: c.address != address
      ensures failed ==> found.None? && exists c :: c in clients && c !in connected
      ensures (forall c | c in clients :: c in connected) && UniqueAddresses(clients) ==>
                forall c | c in clients && c.address == address :: found == Some(c)
    {
      for i := 0 to |clients|
        invariant forall c | c in clients[..i] :: c in connected && c.address != address
      {
        assert clients[..i + 1] == clients[..i] + [clients[i]];
        if clients[i] !in connected {
          return None, true;
        }
        if clients[i].address == address {
          forall c | c in clients && c.address == address && UniqueAddresses(clients)
            ensures c == clients[i]
          {
            var j :| 0 <= j < |clients| && clients[j] == c;
          }
          return Some(clients[i]), false;
        }
      }
      assert clients[..|clients|] == clients;
      return None, false;
    }

    method HeartbeatSnapshot() returns (copy: nat)
      modifies this
      ensures View() == Next(old(View()), Snapshot) && copy == |old(copies)|
    {
      copy := |copies|;
      copies := copies + [clients];
    }

    method HeartbeatPing(copy: nat, failed: set<Client>)
      requires copy < |copies|
      modifies this`copies
      ensures View() == Next(old(View()), Ping(copy, failed))
    {
      hide Without;
      var doomed := c => c in failed;
      var kept := ClientsRemoveIf(copies[copy], doomed);
      SameTest(copies[copy], doomed, c => c in failed);
      copies := copies[copy := kept];
    }

    method HeartbeatWriteBack(copy: nat)
      requires copy < |copies|
      modifies this`clients
      ensures View() == Next(old(View()), WriteBack(copy))
    {
      clients := copies[copy];
    }
  }

  lemma {:induction false} SameTest(clients: seq<Client>, f: Client -> bool, g: Client -> bool)
    requires forall c :: f(c) == g(c)
    ensures Without(clients, f) == Without(clients, g)
  {
    if clients != [] {
      SameTest(clients[..|clients| - 1], f, g);
    }
  }
}
