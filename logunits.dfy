/** A write-once log unit, seen from the client. The unit's server keeps a
    write-once map from its own (mapped) addresses to bytes and answers each
    request with an error code; the client protocol turns the codes into
    exceptions. Only these observable outcomes are modelled, not the Thrift
    transport or its connection pool. */
module LogUnits {
  import opened Base

  /** Names a log unit of the cluster. */
  type UnitId = nat

  /** What a unit holds at one of its addresses. */
  datatype Cell = Filled(data: Bytes) | TrimmedCell

  /** A unit's durable state: the epoch it serves and its write-once cells. */
  datatype LogUnit = LogUnit(epoch: int, cells: map<int, Cell>)

  /** The server's error codes. */
  datatype ErrorCode = OK | ERR_UNWRITTEN | ERR_OVERWRITE | ERR_TRIMMED | ERR_STALEEPOCH

  /** The server's answer to a read: an error code and the stored content. */
  datatype ReadReply = ReadReply(err: ErrorCode, content: Bytes)

  /** The exceptions the client protocol raises. `Overwrite`, `Trimmed` and
      `Unwritten` carry the address as the unit knows it (the mapped one). */
  datatype UnitFailure = Overwrite(address: int) | Trimmed(address: int) | Unwritten(address: int) | Network

  // ---------------------------------------------------------------------
  // The server side (the unit's own program is not part of this model: these
  // two functions are its assumed behaviour).

  /** A write tagged with an epoch older than the unit's is refused as stale;
      an occupied address is never changed. */
  function ServeWrite(u: LogUnit, epoch: int, address: int, data: Bytes): (r: (LogUnit, ErrorCode))
    ensures r.1 == OK <==> epoch >= u.epoch && address !in u.cells
    ensures r.1 == OK ==> r.0 == u.(cells := u.cells[address := Filled(data)])
    ensures r.1 != OK ==> r.0 == u
    ensures r.1 == ERR_OVERWRITE <==> epoch >= u.epoch && address in u.cells && u.cells[address].Filled?
    ensures r.1 == ERR_TRIMMED <==> epoch >= u.epoch && address in u.cells && u.cells[address].TrimmedCell?
  {
    if epoch < u.epoch then (u, ERR_STALEEPOCH)
    else if address !in u.cells then (u.(cells := u.cells[address := Filled(data)]), OK)
    else if u.cells[address].TrimmedCell? then (u, ERR_TRIMMED)
    else (u, ERR_OVERWRITE)
  }

  function ServeRead(u: LogUnit, address: int): (r: ReadReply)
    ensures r.err == ERR_UNWRITTEN <==> address !in u.cells
    ensures r.err == ERR_TRIMMED <==> address in u.cells && u.cells[address].TrimmedCell?
    ensures r.err == OK <==> address in u.cells && u.cells[address].Filled?
    ensures r.err == OK ==> r.content == u.cells[address].data
  {
    if address !in u.cells then ReadReply(ERR_UNWRITTEN, [])
    else match u.cells[address]
      case TrimmedCell => ReadReply(ERR_TRIMMED, [])
      case Filled(d) => ReadReply(OK, d)
  }

  // ---------------------------------------------------------------------
  // The client protocol: error code to exception.

  /** The client's reaction to the code a write returned: OVERWRITE and
      TRIMMED become the matching exception, a stale epoch becomes a
      NetworkException, and every other code counts as success. */
  function WriteCodeOutcome(ec: ErrorCode, address: int): (r: Option<UnitFailure>)
    ensures r == None <==> ec == OK || ec == ERR_UNWRITTEN
    ensures r.Some? && r.value.Network? <==> ec == ERR_STALEEPOCH
    ensures r.Some? && !r.value.Network? ==> r.value.address == address
    ensures ec == ERR_OVERWRITE ==> r == Some(Overwrite(address))
    ensures ec == ERR_TRIMMED ==> r == Some(Trimmed(address))
  {
    match ec
    case ERR_OVERWRITE => Some(Overwrite(address))
    case ERR_TRIMMED => Some(Trimmed(address))
    case ERR_STALEEPOCH => Some(Network)
    case _ => None
  }

  /** The client's reaction to a read reply: UNWRITTEN and TRIMMED become the
      matching exception, and otherwise the content is returned. */
  function ReadReplyOutcome(w: ReadReply, address: int): (r: Result<Bytes, UnitFailure>)
    ensures r.Success? <==> w.err != ERR_UNWRITTEN && w.err != ERR_TRIMMED
    ensures r.Success? ==> r.value == w.content
    ensures r.Failure? ==> r.error == (if w.err == ERR_UNWRITTEN then Unwritten(address) else Trimmed(address))
  {
    if w.err == ERR_UNWRITTEN then Failure(Unwritten(address))
    else if w.err == ERR_TRIMMED then Failure(Trimmed(address))
    else Success(w.content)
  }

  // ---------------------------------------------------------------------
  // The unit as the client sees it, over a reliable link.

  /** A write as the client observes it: the new unit state and the raised
      exception, if any. */
  function ClientWrite(u: LogUnit, epoch: int, address: int, data: Bytes): (r: (LogUnit, Option<UnitFailure>))
    ensures r.0.epoch == u.epoch
    ensures r.1 != None ==> r.0 == u
    ensures r.1 == None ==> address in r.0.cells && r.0.cells[address] == Filled(data)
  {
    var (u', ec) := ServeWrite(u, epoch, address, data);
    (u', WriteCodeOutcome(ec, address))
  }

  /** A read as the client observes it. */
  function ClientRead(u: LogUnit, address: int): (r: Result<Bytes, UnitFailure>)
    ensures r.Failure? ==> (r.error.Unwritten? || r.error.Trimmed?) && r.error.address == address
  {
    ReadReplyOutcome(ServeRead(u, address), address)
  }

  /** The outcome of a client write, case by case: it succeeds exactly when
      the epoch is current and the address is free, and then fills it;
      otherwise it raises without touching the unit. */
  lemma ClientWriteOutcomes(u: LogUnit, epoch: int, address: int, data: Bytes)
    ensures var (u', f) := ClientWrite(u, epoch, address, data);
      && (f == None <==> epoch >= u.epoch && address !in u.cells)
      && (f == None ==> u'.cells == u.cells[address := Filled(data)] && u'.epoch == u.epoch)
      && (f != None ==> u' == u)
      && (f == Some(Network) <==> epoch < u.epoch)
      && (f == Some(Overwrite(address)) <==> epoch >= u.epoch && address in u.cells && u.cells[address].Filled?)
      && (f == Some(Trimmed(address)) <==> epoch >= u.epoch && address in u.cells && u.cells[address].TrimmedCell?)
  {
  }

  /** The outcome of a client read is exactly what the unit holds. */
  lemma ClientReadOutcomes(u: LogUnit, address: int)
    ensures var r := ClientRead(u, address);
      && (r == Failure(Unwritten(address)) <==> address !in u.cells)
      && (r == Failure(Trimmed(address)) <==> address in u.cells && u.cells[address].TrimmedCell?)
      && (r.Success? <==> address in u.cells && u.cells[address].Filled?)
      && (r.Success? ==> u.cells[address] == Filled(r.value))
  {
  }

  /** Write-once: after a successful write, reading the address returns the
      data exactly, and any later write there, of the same data or not,
      fails with OVERWRITE and changes nothing. */
  lemma WriteOnce(u: LogUnit, epoch: int, address: int, data: Bytes, epoch2: int, data2: Bytes)
    requires ClientWrite(u, epoch, address, data).1 == None
    requires epoch2 >= u.epoch
    ensures var u' := ClientWrite(u, epoch, address, data).0;
      && ClientRead(u', address) == Success(data)
      && ClientWrite(u', epoch2, address, data2) == (u', Some(Overwrite(address)))
  {
  }

  /** Reading an address that was never written fails with UNWRITTEN. */
  lemma ReadUnwritten(u: LogUnit, address: int)
    requires address !in u.cells
    ensures ClientRead(u, address) == Failure(Unwritten(address))
  {
  }
}
