/** A local transaction: a command bound to the engine it executes on and to
    a snapshot timestamp. Asked for an engine on some stream, it shares the
    executing engine's object when the stream is the executing one, and
    otherwise opens the stream and builds a one-shot engine synced to the
    snapshot. A local transaction cannot be proposed to the log. The SMR
    engines themselves are not part of this model: an engine is recorded by
    what it was built from. */
module Transactions {
  import opened Base
  import opened Timestamps

  /** The class an engine materializes. */
  type ClassName = string

  /** The engine a transaction executes on: its stream and its object. */
  datatype ExecutingEngine = ExecutingEngine(streamID: UUID, obj: Object)

  datatype Engine =
    | PassThrough(obj: Object, timestamp: Timestamp)
    | OneShot(stream: UUID, objClass: ClassName, timestamp: Timestamp, syncedTo: Option<Timestamp>)

  datatype TxError = UnsupportedOperation

  /** `engine.sync(ts)`: a one-shot engine replays its stream up to `ts`. */
  function Sync(engine: Engine, ts: Timestamp): (r: Engine)
    ensures engine.OneShot? ==> r.OneShot? && r.syncedTo == Some(ts)
    ensures engine.OneShot? ==> r.stream == engine.stream && r.objClass == engine.objClass && r.timestamp == engine.timestamp
    ensures engine.PassThrough? ==> r == engine
  {
    match engine
    case PassThrough(_, _) => engine
    case OneShot(s, c, t, _) => OneShot(s, c, t, Some(ts))
  }

  /** The point in the log whose state an engine shows: a pass-through engine
      the timestamp it was handed, a one-shot engine the one it was synced to. */
  function SnapshotOf(engine: Engine): (r: Option<Timestamp>)
    ensures engine.PassThrough? ==> r == Some(engine.timestamp)
    ensures engine.OneShot? ==> r == engine.syncedTo
  {
    match engine
    case PassThrough(_, t) => Some(t)
    case OneShot(_, _, _, s) => s
  }

  class LocalTransaction {
    var executingEngine: ExecutingEngine
    var timestamp: Timestamp

    constructor (executingEngine: ExecutingEngine, timestamp: Timestamp)
      ensures this.executingEngine == executingEngine && this.timestamp == timestamp
    {
      this.executingEngine := executingEngine;
      this.timestamp := timestamp;
    }

    /** `getEngine(streamID, objClass)`: the engine and the stream it opened,
        if any. Either way the engine shows the state at the transaction's
        snapshot. */
    method GetEngine(streamID: UUID, objClass: ClassName) returns (engine: Engine, openedStream: Option<UUID>)
      ensures streamID == executingEngine.streamID ==>
                engine == PassThrough(executingEngine.obj, timestamp) && openedStream == None
      ensures streamID != executingEngine.streamID ==>
                engine.OneShot? && engine.stream == streamID && engine.objClass == objClass &&
                engine.timestamp == timestamp && openedStream == Some(streamID)
      ensures SnapshotOf(engine) == Some(timestamp)
    {
      if streamID == executingEngine.streamID {
        return PassThrough(executingEngine.obj, timestamp), None;
      }
      openedStream := Some(streamID);
      engine := OneShot(streamID, objClass, timestamp, None);
      engine := Sync(engine, timestamp);
    }

    /** `registerStream(stream)`: does nothing. */
    method RegisterStream(stream: UUID)
      modifies this
      ensures unchanged(this)
    {
    }

    /** `setCorfuDBRuntime(runtime)`: does nothing; the runtime is not even
        stored. */
    method SetCorfuDBRuntime()
      modifies this
      ensures unchanged(this)
    {
    }

    /** `setTransaction(command)`: does nothing. */
    method SetTransaction()
      modifies this
      ensures unchanged(this)
    {
    }

    /** `executeTransaction(engine)`: does nothing. */
    method ExecuteTransaction(engine: Engine)
      modifies this
      ensures unchanged(this)
    {
    }

    /** `propose()`: a local transaction can never be proposed to the log. */
    method Propose() returns (r: Result<Timestamp, TxError>)
      ensures r == Failure(UnsupportedOperation)
    {
      return Failure(UnsupportedOperation);
    }
  }
}
