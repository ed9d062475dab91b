/**
 What the transaction table answers after each operation, call by call and role by role, in the fields of the topmost
 Via (mods/edgeport/src/main/java/io/routr/utils/TransactionManager.java).
 */
module TransactionReads {
  import opened Wrappers
  import opened TransactionTable
  import Text

  /** The client transaction of a call as it is read after some operations. */
  function ClientOf(ops: seq<Operation>, callId: string): Result<Option<Transaction>, ClassCastException> {
    Read(After(ops), callId + "_client", CLIENT)
  }

  function ServerOf(ops: seq<Operation>, callId: string): Result<Option<Transaction>, ClassCastException> {
    Read(After(ops), callId + "_server", SERVER)
  }

  /** The topmost Via has this transport, in whatever letter case, and this very host and port. */
  predicate CameBy(transaction: Option<Transaction>, transport: string, host: string, port: int) {
    && transaction.Some? && transaction.value.request.Some? && transaction.value.request.value.via.Some?
    && var via := transaction.value.request.value.via.value;
       && via.transport.Some? && Text.SameText(via.transport.value, transport) && (via.host, via.port) == (host, port)
  }

  lemma MatchesIffCameBy(transaction: Option<Transaction>, transport: string, host: string, port: int)
    ensures Matches(transaction, transport, host, port) <==> CameBy(transaction, transport, host, port)
  {
    if transaction.Some? && transaction.value.request.Some? && transaction.value.request.value.via.Some? {
      var via := transaction.value.request.value.via.value;
      if via.transport.Some? {
        Text.ComparesLetterByLetter(transport, via.transport.value);
        Text.ComparesLetterByLetter(via.transport.value, transport);
      }
    }
  }

  lemma NothingAtFirst(callId: string)
    ensures ClientOf([], callId) == Ok(None) && ServerOf([], callId) == Ok(None)
  {
  }

  lemma TwoAfterOneMore(ops: seq<Operation>, op: Operation)
    ensures TwoAfter(ops + [op]) == ApplyToTwo(TwoAfter(ops), op)
  {
    assert (ops + [op])[..|ops|] == ops;
  }

  /**
   What a call's client transaction is read as after one more operation: what was put or updated for that call, nothing
   once the call is removed or its transport goes away, and what it was before in every other case.
   */
  lemma ClientAfter(ops: seq<Operation>, op: Operation, callId: string)
    ensures ClientOf(ops, callId).Ok?
    ensures ClientOf(ops + [op], callId) ==
            var before := ClientOf(ops, callId).value;
            match op
            case Put(c, client, server) => Ok(if c == callId then client else before)
            case UpdateClient(c, client) => Ok(if c == callId then client else before)
            case Remove(c) => Ok(if c == callId then None else before)
            case RemoveByTransport(transport, host, port) =>
              Ok(if CameBy(before, transport, host, port) then None else before)
  {
    hide After, TwoAfter, Matches, CameBy;
    ReadsItsOwnMap(ops, callId);
    ReadsItsOwnMap(ops + [op], callId);
    TwoAfterOneMore(ops, op);
    if op.RemoveByTransport? {
      MatchesIffCameBy(ClientOf(ops, callId).value, op.transport, op.host, op.port);
    }
  }

  /** The same for its server transaction, which an update of the client transaction leaves as it is. */
  lemma ServerAfter(ops: seq<Operation>, op: Operation, callId: string)
    ensures ServerOf(ops, callId).Ok?
    ensures ServerOf(ops + [op], callId) ==
            var before := ServerOf(ops, callId).value;
            match op
            case Put(c, client, server) => Ok(if c == callId then server else before)
            case UpdateClient(_, _) => Ok(before)
            case Remove(c) => Ok(if c == callId then None else before)
            case RemoveByTransport(transport, host, port) =>
              Ok(if CameBy(before, transport, host, port) then None else before)
  {
    hide After, TwoAfter, Matches, CameBy;
    ReadsItsOwnMap(ops, callId);
    ReadsItsOwnMap(ops + [op], callId);
    TwoAfterOneMore(ops, op);
    if op.RemoveByTransport? {
      MatchesIffCameBy(ServerOf(ops, callId).value, op.transport, op.host, op.port);
    }
  }
}
