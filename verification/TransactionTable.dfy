/**
 The edge port's table of active transactions (mods/edgeport/src/main/java/io/routr/utils/TransactionManager.java):
 one map keyed by call id and role, against two maps keyed by call id.
 */
module TransactionTable {
  import opened Wrappers
  import Text

  datatype ViaHeader = ViaHeader(transport: Option<string>, host: string, port: int)

  /** The request of a transaction as far as removal by transport reads it: its topmost Via. */
  datatype SipRequest = SipRequest(via: Option<ViaHeader>)

  datatype Role = CLIENT | SERVER

  datatype Transaction = Transaction(role: Role, id: nat, request: Option<SipRequest>)

  type ClientTransaction = t: Transaction | t.role == CLIENT witness Transaction(CLIENT, 0, None)

  type ServerTransaction = t: Transaction | t.role == SERVER witness Transaction(SERVER, 0, None)

  datatype ClassCastException = ClassCastException

  /** Values may be null. */
  type Table = map<string, Option<Transaction>>

  function ClientKey(callId: string): string {
    callId + "_client"
  }

  function ServerKey(callId: string): string {
    callId + "_server"
  }

  predicate Matches(transaction: Option<Transaction>, transport: string, host: string, port: int) {
    && transaction.Some? && transaction.value.request.Some? && transaction.value.request.value.via.Some?
    && var via := transaction.value.request.value.via.value;
       && via.transport.Some? && Text.EqualsIgnoreCase(transport, via.transport.value)
       && host == via.host && port == via.port
  }

  function Unmatched(table: Table, transport: string, host: string, port: int): Table {
    map key | key in table && !Matches(table[key], transport, host, port) :: table[key]
  }

  /** `removed` lists the transactions of exactly the matching entries of `table`, each entry once. */
  ghost predicate ListsTheMatches(table: Table, removed: seq<Transaction>, transport: string, host: string, port: int) {
    exists keys: seq<string> :: ListsTheKeys(table, keys, removed, transport, host, port)
  }

  ghost predicate ListsTheKeys(table: Table, keys: seq<string>, removed: seq<Transaction>, transport: string,
                               host: string, port: int) {
    && |keys| == |removed|
    && (forall i, j :: 0 <= i < j < |keys| ==> keys[i] != keys[j])
    && (forall i :: 0 <= i < |keys| ==> keys[i] in table && table[keys[i]] == Some(removed[i]))
    && (forall key :: key in keys <==> key in table && Matches(table[key], transport, host, port))
  }

  class TransactionManager {
    var activeTransactions: Table

    constructor ()
      ensures activeTransactions == map[]
    {
      activeTransactions := map[];
    }

    method PutTransactions(callId: string, client: Option<ClientTransaction>, server: Option<ServerTransaction>)
      modifies this
      ensures activeTransactions == Apply(old(activeTransactions), Put(callId, client, server))
    {
      activeTransactions := activeTransactions[ClientKey(callId) := client];
      activeTransactions := activeTransactions[ServerKey(callId) := server];
    }

    method GetClientTransaction(callId: string) returns (r: Result<Option<Transaction>, ClassCastException>)
      ensures r == Read(activeTransactions, ClientKey(callId), CLIENT)
    {
      if ClientKey(callId) !in activeTransactions || activeTransactions[ClientKey(callId)] == None {
        return Ok(None);
      }
      var transaction := activeTransactions[ClientKey(callId)].value;
      r := if transaction.role == CLIENT then Ok(Some(transaction)) else Err(ClassCastException);
    }

    method GetServerTransaction(callId: string) returns (r: Result<Option<Transaction>, ClassCastException>)
      ensures r == Read(activeTransactions, ServerKey(callId), SERVER)
    {
      if ServerKey(callId) !in activeTransactions || activeTransactions[ServerKey(callId)] == None {
        return Ok(None);
      }
      var transaction := activeTransactions[ServerKey(callId)].value;
      r := if transaction.role == SERVER then Ok(Some(transaction)) else Err(ClassCastException);
    }

    method RemoveTransactions(callId: string)
      modifies this
      ensures activeTransactions == Apply(old(activeTransactions), Remove(callId))
    {
      activeTransactions := activeTransactions - {ClientKey(callId)};
      activeTransactions := activeTransactions - {ServerKey(callId)};
    }

    method UpdateClientTransaction(callId: string, client: Option<ClientTransaction>)
      modifies this
      ensures activeTransactions == Apply(old(activeTransactions), UpdateClient(callId, client))
    {
      activeTransactions := activeTransactions[ClientKey(callId) := client];
    }

    /** The entries are visited in whatever order the map yields them. */
    method RemoveTransactionsByTransport(transport: string, host: string, port: int) returns (removed: seq<Transaction>)
      modifies this
      ensures activeTransactions == Apply(old(activeTransactions), RemoveByTransport(transport, host, port))
      ensures ListsTheMatches(old(activeTransactions), removed, transport, host, port)
    {
      var toRemove: seq<string> := [];
      removed := [];
      ghost var table, visited := activeTransactions, map[];
      var rest := activeTransactions.Keys;
      assert ListsTheKeys(visited, toRemove, removed, transport, host, port);
      assert Split(table, rest, visited);
      hide ListsTheKeys, Matches, Unmatched, Split, Lacks;
      while rest != {}
        invariant rest <= activeTransactions.Keys && activeTransactions == table
        invariant Split(table, rest, visited)
        invariant ListsTheKeys(visited, toRemove, removed, transport, host, port)
        decreases |rest|
      {
        var key :| key in rest;
        var transaction := activeTransactions[key];
        VisitOne(table, rest, visited, key);
        OneMoreEntry(visited, key, transaction, toRemove, removed, transport, host, port);
        rest, visited := rest - {key}, visited[key := transaction];
        if Matches(transaction, transport, host, port) {
          MatchesSome(transaction, transport, host, port);
          toRemove, removed := toRemove + [key], removed + [transaction.value];
        }
      }
      AllVisited(table, visited);
      LacksNothing(table, toRemove);
      for i := 0 to |toRemove|
        invariant Lacks(table, activeTransactions, toRemove[..i])
      {
        LacksOneMore(table, activeTransactions, toRemove, i);
        activeTransactions := activeTransactions - {toRemove[i]};
      }
      assert toRemove[..|toRemove|] == toRemove;
      ListedAreRemoved(table, activeTransactions, toRemove, removed, transport, host, port);
    }
  }

  /** The entries of `table` are those of `visited` and those with a key in `rest`. */
  ghost predicate Split(table: Table, rest: set<string>, visited: Table) {
    && (forall key :: key in rest ==> key in table && key !in visited)
    && (forall key :: key in table ==> key in rest || key in visited)
    && (forall key :: key in visited ==> key in table && visited[key] == table[key])
  }

  lemma VisitOne(table: Table, rest: set<string>, visited: Table, key: string)
    requires Split(table, rest, visited) && key in rest
    ensures key in table && key !in visited && Split(table, rest - {key}, visited[key := table[key]])
  {
  }

  lemma AllVisited(table: Table, visited: Table)
    requires Split(table, {}, visited)
    ensures table == visited
  {
  }

  /** `left` is `table` without the entries of `keys`. */
  ghost predicate Lacks(table: Table, left: Table, keys: seq<string>) {
    && (forall key :: key in left <==> key in table && key !in keys)
    && (forall key :: key in left ==> left[key] == table[key])
  }

  lemma LacksNothing(table: Table, keys: seq<string>)
    ensures Lacks(table, table, keys[..0])
  {
  }

  lemma LacksOneMore(table: Table, left: Table, keys: seq<string>, i: nat)
    requires i < |keys| && Lacks(table, left, keys[..i])
    ensures Lacks(table, left - {keys[i]}, keys[..i + 1])
  {
    assert keys[..i + 1] == keys[..i] + [keys[i]];
  }

  lemma OneMoreEntry(table: Table, key: string, transaction: Option<Transaction>, keys: seq<string>,
                     removed: seq<Transaction>, transport: string, host: string, port: int)
    requires key !in table && ListsTheKeys(table, keys, removed, transport, host, port)
    ensures var longer := table[key := transaction];
            if Matches(transaction, transport, host, port)
            then ListsTheKeys(longer, keys + [key], removed + [transaction.value], transport, host, port)
            else ListsTheKeys(longer, keys, removed, transport, host, port)
  {
    hide Matches;
    if Matches(transaction, transport, host, port) {
      MatchesSome(transaction, transport, host, port);
      var next := keys + [key];
      var longer := table[key := transaction];
      forall k ensures k in next <==> k in longer && Matches(longer[k], transport, host, port) {
        assert k in next <==> k in keys || k == key;
      }
    }
  }

  lemma ListedAreRemoved(table: Table, left: Table, keys: seq<string>, removed: seq<Transaction>, transport: string,
                         host: string, port: int)
    requires ListsTheKeys(table, keys, removed, transport, host, port) && Lacks(table, left, keys)
    ensures left == Unmatched(table, transport, host, port)
  {
    hide Matches;
  }

  lemma MatchesSome(transaction: Option<Transaction>, transport: string, host: string, port: int)
    requires Matches(transaction, transport, host, port)
    ensures transaction.Some?
  {
  }

  // ---------------------------------------------------------------- operations on the one map

  datatype Operation =
    | Put(callId: string, client: Option<ClientTransaction>, server: Option<ServerTransaction>)
    | UpdateClient(callId: string, client: Option<ClientTransaction>)
    | Remove(callId: string)
    | RemoveByTransport(transport: string, host: string, port: int)

  function Apply(table: Table, op: Operation): Table {
    match op
    case Put(callId, client, server) => table[ClientKey(callId) := client][ServerKey(callId) := server]
    case UpdateClient(callId, client) => table[ClientKey(callId) := client]
    case Remove(callId) => table - {ClientKey(callId)} - {ServerKey(callId)}
    case RemoveByTransport(transport, host, port) => Unmatched(table, transport, host, port)
  }

  function After(ops: seq<Operation>): Table {
    if ops == [] then map[] else Apply(After(ops[..|ops| - 1]), ops[|ops| - 1])
  }

  /** A missing entry and a null one read alike; a transaction of the other role fails the cast. */
  function Read(table: Table, key: string, role: Role): Result<Option<Transaction>, ClassCastException> {
    if key !in table || table[key].None? then Ok(None)
    else if table[key].value.role == role then Ok(table[key])
    else Err(ClassCastException)
  }

  // ---------------------------------------------------------------- operations on two maps

  datatype Tables = Tables(clients: Table, servers: Table)

  function ApplyToTwo(t: Tables, op: Operation): Tables {
    match op
    case Put(callId, client, server) => Tables(t.clients[callId := client], t.servers[callId := server])
    case UpdateClient(callId, client) => t.(clients := t.clients[callId := client])
    case Remove(callId) => Tables(t.clients - {callId}, t.servers - {callId})
    case RemoveByTransport(transport, host, port) =>
      Tables(Unmatched(t.clients, transport, host, port), Unmatched(t.servers, transport, host, port))
  }

  function TwoAfter(ops: seq<Operation>): Tables {
    if ops == [] then Tables(map[], map[]) else ApplyToTwo(TwoAfter(ops[..|ops| - 1]), ops[|ops| - 1])
  }

  // ---------------------------------------------------------------- refinement

  /** No two call ids share a key, in the same role or across roles. */
  lemma KeysNeverCollide(c: string, d: string)
    ensures ClientKey(c) != ServerKey(d)
    ensures ClientKey(c) == ClientKey(d) ==> c == d
    ensures ServerKey(c) == ServerKey(d) ==> c == d
  {
    var a, b, x, y := ClientKey(c), ServerKey(d), ClientKey(d), ServerKey(c);
    assert a[|a| - 1] == 't' && b[|b| - 1] == 'r';
    assert c == a[..|a| - 7] && d == x[..|x| - 7];
    assert c == y[..|y| - 7] && d == b[..|b| - 7];
  }

  /** The keys of a role hold what the map of that role holds. */
  ghost predicate Holds(table: Table, keyOf: string -> string, m: Table) {
    && (forall c :: keyOf(c) in table <==> c in m)
    && (forall c :: c in m ==> table[keyOf(c)] == m[c])
  }

  predicate InRole(m: Table, role: Role) {
    forall c :: c in m ==> m[c].Some? ==> m[c].value.role == role
  }

  ghost predicate Represents(table: Table, t: Tables) {
    && InRole(t.clients, CLIENT) && InRole(t.servers, SERVER)
    && Holds(table, ClientKey, t.clients)
    && Holds(table, ServerKey, t.servers)
    && (forall key :: key in table ==> IsKey(key))
  }

  /** Nothing but keys of call ids is ever stored. */
  ghost predicate IsKey(key: string) {
    exists c: string :: key == ClientKey(c) || key == ServerKey(c)
  }

  ghost predicate Injective(keyOf: string -> string) {
    forall c, d :: keyOf(c) == keyOf(d) ==> c == d
  }

  lemma StoringUnderItsKey(table: Table, keyOf: string -> string, m: Table, callId: string, value: Option<Transaction>)
    requires Holds(table, keyOf, m) && Injective(keyOf)
    ensures Holds(table[keyOf(callId) := value], keyOf, m[callId := value])
  {
  }

  lemma ChangingAnotherKey(table: Table, keyOf: string -> string, m: Table, key: string, value: Option<Transaction>)
    requires Holds(table, keyOf, m) && forall c :: keyOf(c) != key
    ensures Holds(table[key := value], keyOf, m)
  {
  }

  lemma RemovingItsKey(table: Table, keyOf: string -> string, m: Table, callId: string)
    requires Holds(table, keyOf, m) && Injective(keyOf)
    ensures Holds(table - {keyOf(callId)}, keyOf, m - {callId})
  {
  }

  lemma RemovingAnotherKey(table: Table, keyOf: string -> string, m: Table, key: string)
    requires Holds(table, keyOf, m) && forall c :: keyOf(c) != key
    ensures Holds(table - {key}, keyOf, m)
  {
  }

  lemma KeysAreApart()
    ensures Injective(ClientKey) && Injective(ServerKey)
    ensures forall c, d :: ClientKey(c) != ServerKey(d)
  {
    forall c, d
      ensures ClientKey(c) != ServerKey(d)
      ensures ClientKey(c) == ClientKey(d) ==> c == d
      ensures ServerKey(c) == ServerKey(d) ==> c == d
    {
      KeysNeverCollide(c, d);
    }
  }

  lemma KeysStayKeys(table: Table, op: Operation)
    requires forall key :: key in table ==> IsKey(key)
    ensures forall key :: key in Apply(table, op) ==> IsKey(key)
  {
    if op.Put? || op.UpdateClient? {
      assert IsKey(ClientKey(op.callId)) && IsKey(ServerKey(op.callId));
    }
    hide IsKey, ClientKey, ServerKey, Matches;
  }

  lemma RemovingMatches(table: Table, keyOf: string -> string, m: Table, transport: string, host: string, port: int)
    requires Holds(table, keyOf, m)
    ensures Holds(Unmatched(table, transport, host, port), keyOf, Unmatched(m, transport, host, port))
  {
    hide Matches;
  }

  lemma PutHolds(table: Table, t: Tables, callId: string, client: Option<Transaction>, server: Option<Transaction>)
    requires Holds(table, ClientKey, t.clients) && Holds(table, ServerKey, t.servers)
    ensures var next := table[ClientKey(callId) := client][ServerKey(callId) := server];
            && Holds(next, ClientKey, t.clients[callId := client])
            && Holds(next, ServerKey, t.servers[callId := server])
  {
    KeysAreApart();
    hide Injective, Holds;
    var next := table[ClientKey(callId) := client];
    StoringUnderItsKey(table, ClientKey, t.clients, callId, client);
    ChangingAnotherKey(table, ServerKey, t.servers, ClientKey(callId), client);
    ChangingAnotherKey(next, ClientKey, t.clients[callId := client], ServerKey(callId), server);
    StoringUnderItsKey(next, ServerKey, t.servers, callId, server);
  }

  lemma UpdateHolds(table: Table, t: Tables, callId: string, client: Option<Transaction>)
    requires Holds(table, ClientKey, t.clients) && Holds(table, ServerKey, t.servers)
    ensures Holds(table[ClientKey(callId) := client], ClientKey, t.clients[callId := client])
    ensures Holds(table[ClientKey(callId) := client], ServerKey, t.servers)
  {
    KeysAreApart();
    hide Injective, Holds;
    StoringUnderItsKey(table, ClientKey, t.clients, callId, client);
    ChangingAnotherKey(table, ServerKey, t.servers, ClientKey(callId), client);
  }

  lemma RemoveHolds(table: Table, t: Tables, callId: string)
    requires Holds(table, ClientKey, t.clients) && Holds(table, ServerKey, t.servers)
    ensures Holds(table - {ClientKey(callId)} - {ServerKey(callId)}, ClientKey, t.clients - {callId})
    ensures Holds(table - {ClientKey(callId)} - {ServerKey(callId)}, ServerKey, t.servers - {callId})
  {
    KeysAreApart();
    hide Injective, Holds;
    var next := table - {ClientKey(callId)};
    RemovingItsKey(table, ClientKey, t.clients, callId);
    RemovingAnotherKey(table, ServerKey, t.servers, ClientKey(callId));
    RemovingAnotherKey(next, ClientKey, t.clients - {callId}, ServerKey(callId));
    RemovingItsKey(next, ServerKey, t.servers, callId);
  }

  lemma StepHolds(table: Table, t: Tables, op: Operation)
    requires Holds(table, ClientKey, t.clients) && Holds(table, ServerKey, t.servers)
    ensures Holds(Apply(table, op), ClientKey, ApplyToTwo(t, op).clients)
    ensures Holds(Apply(table, op), ServerKey, ApplyToTwo(t, op).servers)
  {
    hide Holds;
    match op
    case Put(callId, client, server) => PutHolds(table, t, callId, client, server);
    case UpdateClient(callId, client) => UpdateHolds(table, t, callId, client);
    case Remove(callId) => RemoveHolds(table, t, callId);
    case RemoveByTransport(transport, host, port) =>
      RemovingMatches(table, ClientKey, t.clients, transport, host, port);
      RemovingMatches(table, ServerKey, t.servers, transport, host, port);
  }

  lemma StepKeepsRoles(t: Tables, op: Operation)
    requires InRole(t.clients, CLIENT) && InRole(t.servers, SERVER)
    ensures InRole(ApplyToTwo(t, op).clients, CLIENT) && InRole(ApplyToTwo(t, op).servers, SERVER)
  {
    hide Matches;
  }

  lemma StepRepresents(table: Table, t: Tables, op: Operation)
    requires Represents(table, t)
    ensures Represents(Apply(table, op), ApplyToTwo(t, op))
  {
    hide Holds, IsKey, InRole, Apply, ApplyToTwo;
    StepHolds(table, t, op);
    StepKeepsRoles(t, op);
    KeysStayKeys(table, op);
  }

  /** After any operations the one map holds what two maps would. */
  lemma {:induction false} OneMapRefinesTwo(ops: seq<Operation>)
    ensures Represents(After(ops), TwoAfter(ops))
  {
    if ops != [] {
      OneMapRefinesTwo(ops[..|ops| - 1]);
      StepRepresents(After(ops[..|ops| - 1]), TwoAfter(ops[..|ops| - 1]), ops[|ops| - 1]);
    }
  }

  function Find(m: Table, callId: string): Option<Transaction> {
    if callId in m then m[callId] else None
  }

  /** Every read answers what the map of its role holds, and no cast ever fails. */
  lemma ReadsItsOwnMap(ops: seq<Operation>, callId: string)
    ensures Read(After(ops), ClientKey(callId), CLIENT) == Ok(Find(TwoAfter(ops).clients, callId))
    ensures Read(After(ops), ServerKey(callId), SERVER) == Ok(Find(TwoAfter(ops).servers, callId))
  {
    OneMapRefinesTwo(ops);
  }

  /** What was put for a call is read until the next operation on that call, or a removal that matches it. */
  lemma PutIsReadBack(ops: seq<Operation>, callId: string, client: Option<ClientTransaction>,
                      server: Option<ServerTransaction>, later: seq<Operation>)
    requires forall i :: 0 <= i < |later| ==>
               if later[i].RemoveByTransport?
               then !Matches(client, later[i].transport, later[i].host, later[i].port)
                    && !Matches(server, later[i].transport, later[i].host, later[i].port)
               else later[i].callId != callId
    ensures var table := After(ops + [Put(callId, client, server)] + later);
            Read(table, ClientKey(callId), CLIENT) == Ok(client) && Read(table, ServerKey(callId), SERVER) == Ok(server)
  {
    var start := ops + [Put(callId, client, server)];
    var all := start + later;
    ReadsItsOwnMap(all, callId);
    PutIsKept(ops, callId, client, server, later);
  }

  lemma {:induction false} PutIsKept(ops: seq<Operation>, callId: string, client: Option<ClientTransaction>,
                                     server: Option<ServerTransaction>, later: seq<Operation>)
    requires forall i :: 0 <= i < |later| ==>
               if later[i].RemoveByTransport?
               then !Matches(client, later[i].transport, later[i].host, later[i].port)
                    && !Matches(server, later[i].transport, later[i].host, later[i].port)
               else later[i].callId != callId
    ensures var t := TwoAfter(ops + [Put(callId, client, server)] + later);
            callId in t.clients && t.clients[callId] == client && callId in t.servers && t.servers[callId] == server
    decreases |later|
  {
    var start := ops + [Put(callId, client, server)];
    var all := start + later;
    if later == [] {
      assert all == start && start[..|start| - 1] == ops;
    } else {
      assert all[..|all| - 1] == start + later[..|later| - 1];
      PutIsKept(ops, callId, client, server, later[..|later| - 1]);
    }
  }
}
