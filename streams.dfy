/** A simple stream: a cursor over the global log that picks out the entries
    tagged with one stream identifier. Appending takes the next token from
    the sequencer and writes a tagged entry there; reading scans forward
    from the stream pointer up to the sequencer's current value, skipping
    entries of other streams and entries it cannot decode, and stops at a
    hole. The address space is seen here as a map from global addresses to
    what a read of them yields. */
module Streams {
  import opened Base
  import opened LogUnits
  import opened Timestamps

  /** A stream entry: the streams it belongs to, its payload and its
      timestamp. */
  datatype StreamEntry = StreamEntry(streams: set<UUID>, payload: Object, timestamp: Timestamp)

  /** What deserializing an address yields: a stream entry, or something that
      is not one (`ClassNotFoundException` or `ClassCastException`). */
  datatype Item = Decoded(entry: StreamEntry) | Undecodable

  /** A written or a trimmed address; an address absent from the map is
      unwritten. */
  datatype Slot = Stored(item: Item) | TrimmedSlot

  datatype StreamError =
    | HoleEncountered(address: int)
    | TrimmedAt(address: int)
    | OverwriteAt(address: int)
    | OutOfSpace
    | MultiStreamUnsupported
    | NotSimpleTimestamp  // ClassCastException: not a SimpleTimestamp

  /** The sequencer: a counter handing out global addresses. */
  class Sequencer {
    var current: Address

    constructor ()
      ensures current == 0
    {
      current := 0;
    }

    /** `getNext()`: the next token; the token space ends at `Long.MAX_VALUE`. */
    method GetNext() returns (r: Result<Address, StreamError>)
      modifies this
      ensures old(current) < INT64_MAX ==> r == Success(old(current)) && current == old(current) + 1
      ensures old(current) == INT64_MAX ==> r == Failure(OutOfSpace) && current == old(current)
    {
      if current == INT64_MAX {
        return Failure(OutOfSpace);
      }
      r := Success(current);
      current := current + 1;
    }
  }

  /** The write-once address space, as the stream uses it. */
  class LogStore {
    var slots: map<int, Slot>

    constructor ()
      ensures slots == map[]
    {
      slots := map[];
    }

    /** `write(address, entry)`: fills a free address; a written or trimmed
        one is left alone and the write raises. */
    method Write(address: Address, item: Item) returns (r: Outcome<StreamError>)
      modifies this
      ensures address !in old(slots) ==> r == Pass && slots == old(slots)[address := Stored(item)]
      ensures address in old(slots) ==> slots == old(slots)
      ensures address in old(slots) ==>
                r == Fail(if old(slots)[address].TrimmedSlot? then TrimmedAt(address) else OverwriteAt(address))
    {
      if address in slots {
        return Fail(if slots[address].TrimmedSlot? then TrimmedAt(address) else OverwriteAt(address));
      }
      slots := slots[address := Stored(item)];
      return Pass;
    }

    /** `readObject(address)`: the item at the address, or UNWRITTEN or
        TRIMMED. */
    function ReadObject(address: int): (r: Result<Item, UnitFailure>)
      reads this
      ensures r.Success? <==> address in slots && slots[address].Stored?
      ensures r.Success? ==> slots[address] == Stored(r.value)
      ensures r.Failure? ==>
                r.error == (if address in slots then Trimmed(address) else Unwritten(address))
    {
      if address !in slots then Failure(Unwritten(address))
      else match slots[address]
        case TrimmedSlot => Failure(Trimmed(address))
        case Stored(item) => Success(item)
    }
  }

  /** The scan may pass address `j`: it holds something, and that is either
      undecodable or an entry of another stream. */
  ghost predicate Passable(slots: map<int, Slot>, id: UUID, j: int) {
    && j in slots && slots[j].Stored?
    && (slots[j].item.Undecodable? || id !in slots[j].item.entry.streams)
  }

  /** Address `j` holds an entry of stream `id`. */
  ghost predicate OwnEntryAt(slots: map<int, Slot>, id: UUID, j: int) {
    j in slots && slots[j].Stored? && slots[j].item.Decoded? && id in slots[j].item.entry.streams
  }

  /** Where a scan from `lo` leaves the stream pointer once it has looked at
      the addresses before `i`: just past the last entry it decoded, or at
      `lo` when it decoded none. */
  ghost function PointerAfter(slots: map<int, Slot>, lo: int, i: int): int
    decreases i - lo
  {
    if i <= lo then lo
    else if i - 1 in slots && slots[i - 1].Stored? && slots[i - 1].item.Decoded? then i
    else PointerAfter(slots, lo, i - 1)
  }

  /** A scan from `lo` with upper bound `hi` stops at `at`: every address
      before it could be passed, and `at` could not, unless the scan ran to
      its bound. */
  ghost predicate ScanStop(slots: map<int, Slot>, id: UUID, lo: int, hi: int, at: int) {
    && lo <= at
    && (at >= hi ==> at == (if lo < hi then hi else lo))
    && (at < hi ==> !Passable(slots, id, at))
    && forall j :: lo <= j < at ==> Passable(slots, id, j)
  }

  function AsOption(r: Result<StreamEntry, StreamError>): (o: Result<Option<StreamEntry>, StreamError>)
    ensures o.Success? <==> r.Success?
    ensures o.Success? ==> o.value == Some(r.value)
    ensures o.Failure? ==> o.error == r.error
  {
    match r
    case Success(en) => Success(Some(en))
    case Failure(f) => Failure(f)
  }

  function PayloadOf(r: Result<Option<StreamEntry>, StreamError>): (o: Result<Option<Object>, StreamError>)
    ensures o.Success? <==> r.Success?
    ensures o.Success? ==> (o.value.None? <==> r.value.None?)
    ensures o.Success? && o.value.Some? ==> o.value.value == r.value.value.payload
    ensures o.Failure? ==> o.error == r.error
  {
    match r
    case Success(None) => Success(None)
    case Success(Some(en)) => Success(Some(en.payload))
    case Failure(f) => Failure(f)
  }

  class SimpleStream {
    const streamID: UUID
    const sequencer: Sequencer
    const store: LogStore
    /** The next address the scan looks at. */
    var pointer: Address

    constructor (streamID: UUID, sequencer: Sequencer, store: LogStore)
      ensures this.streamID == streamID && this.sequencer == sequencer && this.store == store
      ensures pointer == 0
    {
      this.streamID := streamID;
      this.sequencer := sequencer;
      this.store := store;
      pointer := 0;
    }

    /** Every written address was handed out by the sequencer. */
    ghost predicate Issued()
      reads sequencer, store
    {
      forall a :: a in store.slots ==> 0 <= a < sequencer.current
    }

    /** `append(payload)`: writes an entry tagged with this stream at the next
        token and returns the timestamp of that token. */
    method Append(payload: Object) returns (r: Result<Timestamp, StreamError>)
      modifies sequencer, store
      ensures old(sequencer.current) == INT64_MAX ==>
                r == Failure(OutOfSpace) && sequencer.current == old(sequencer.current) && store.slots == old(store.slots)
      ensures old(sequencer.current) < INT64_MAX ==> sequencer.current == old(sequencer.current) + 1
      ensures var a := old(sequencer.current);
        a < INT64_MAX && a !in old(store.slots) ==>
          r == Success(Simple(a)) &&
          store.slots == old(store.slots)[a := Stored(Decoded(StreamEntry({streamID}, payload, Simple(a))))]
      ensures var a := old(sequencer.current);
        a < INT64_MAX && a in old(store.slots) ==>
          store.slots == old(store.slots) &&
          r == Failure(if old(store.slots)[a].TrimmedSlot? then TrimmedAt(a) else OverwriteAt(a))
      ensures r.Success? ==> r.value == Check(false)
      ensures old(Issued()) ==> Issued() && (r.Failure? ==> r.error == OutOfSpace)
    {
      var sequence := sequencer.GetNext();
      if sequence.Failure? {
        return Failure(sequence.error);
      }
      var timestamp := Simple(sequence.value);
      var written := store.Write(sequence.value, Decoded(StreamEntry({streamID}, payload, timestamp)));
      if written.Fail? {
        return Failure(written.error);
      }
      return Success(timestamp);
    }

    /** IStream's two-stream `append(payload, streams)`: not supported by a
        simple stream; it writes nothing. */
    method AppendToStreams(payload: Object, streams: set<UUID>) returns (r: Result<Timestamp, StreamError>)
      ensures r == Failure(MultiStreamUnsupported)
    {
      return Failure(MultiStreamUnsupported);
    }

    /** `readEntry(ts)`: the entry at the timestamp's address when it belongs
        to this stream; anything else there is a hole, except a trimmed
        address, which is reported as trimmed. A timestamp that is not a
        real one does not cast to SimpleTimestamp. */
    function ReadEntry(ts: Timestamp): (r: Result<StreamEntry, StreamError>)
      reads store
      ensures !ts.Simple? ==> r == Failure(NotSimpleTimestamp)
      ensures r.Success? <==> ts.Simple? && OwnEntryAt(store.slots, streamID, ts.address)
      ensures r.Success? ==> r.value == store.slots[ts.address].item.entry.(timestamp := ts)
      ensures ts.Simple? && r.Failure? ==>
                r.error == (if ts.address in store.slots && store.slots[ts.address].TrimmedSlot?
                            then TrimmedAt(ts.address) else HoleEncountered(ts.address))
    {
      if !ts.Simple? then Failure(NotSimpleTimestamp)
      else match store.ReadObject(ts.address)
        case Failure(f) =>
          if f.Unwritten? then Failure(HoleEncountered(ts.address)) else Failure(TrimmedAt(ts.address))
        case Success(Undecodable) => Failure(HoleEncountered(ts.address))
        case Success(Decoded(en)) =>
          if streamID in en.streams then Success(en.(timestamp := ts)) else Failure(HoleEncountered(ts.address))
    }

    /** The outcome of a scan from `lo` that stopped at `at` with result `r`,
        leaving the pointer at `ptr`: at the bound, no entry and the pointer
        past the last entry decoded; before it, exactly what `readEntry` says
        of that address, with the pointer just past a returned entry. */
    ghost predicate ScanOutcome(lo: int, at: int, r: Result<Option<StreamEntry>, StreamError>, ptr: int)
      reads sequencer, store
    {
      && ScanStop(store.slots, streamID, lo, sequencer.current, at)
      && (at >= sequencer.current ==> r == Success(None) && ptr == PointerAfter(store.slots, lo, at))
      && (at < sequencer.current ==>
            0 <= at <= INT64_MAX &&
            r == AsOption(ReadEntry(Simple(at))) &&
            ptr == (if r.Success? then at + 1 else PointerAfter(store.slots, lo, at)))
    }

    /** `readNextEntry()`: the next entry of this stream before the
        sequencer's current value, or none. */
    method ReadNextEntry() returns (r: Result<Option<StreamEntry>, StreamError>, ghost at: int)
      modifies this
      ensures ScanOutcome(old(pointer), at, r, pointer)
      ensures old(pointer) <= pointer
      ensures r.Success? && r.value.Some? ==> CurrentPosition() == r.value.value.timestamp
    {
      var hi := sequencer.current;
      ghost var lo := pointer;
      var i: int := pointer;
      while i < hi
        invariant lo <= i <= (if lo < hi then hi else lo)
        invariant pointer == PointerAfter(store.slots, lo, i) && lo <= pointer
        invariant forall j :: lo <= j < i ==> Passable(store.slots, streamID, j)
        decreases hi - i
      {
        match store.ReadObject(i) {
          case Failure(f) =>
            // A hole must be filled before the stream can go on; a trimmed
            // address is reported as it is.
            if f.Unwritten? {
              return Failure(HoleEncountered(i)), i;
            }
            return Failure(TrimmedAt(i)), i;
          case Success(Undecodable) =>
          case Success(Decoded(en)) =>
            pointer := i + 1;
            if streamID in en.streams {
              return Success(Some(en.(timestamp := Simple(i)))), i;
            }
        }
        i := i + 1;
      }
      return Success(None), i;
    }

    /** IStream's `readNextObject()`: the payload of the next entry. */
    method ReadNextObject() returns (r: Result<Option<Object>, StreamError>, ghost next: Result<Option<StreamEntry>, StreamError>, ghost at: int)
      modifies this
      ensures ScanOutcome(old(pointer), at, next, pointer)
      ensures r == PayloadOf(next)
    {
      var entry;
      entry, at := ReadNextEntry();
      next := entry;
      r := PayloadOf(entry);
    }

    /** IStream's `readObject(ts)`: the payload of the entry at `ts`. */
    function ReadObject(ts: Timestamp): (r: Result<Object, StreamError>)
      reads store
      ensures r.Success? <==> ReadEntry(ts).Success?
      ensures r.Success? ==> r.value == ReadEntry(ts).value.payload
      ensures r.Failure? ==> r.error == ReadEntry(ts).error
    {
      match ReadEntry(ts)
      case Success(en) => Success(en.payload)
      case Failure(f) => Failure(f)
    }

    /** `getNextTimestamp(ts)`: the address plus one, with `long` wrap-around. */
    function NextTimestamp(ts: Timestamp): (r: Result<Timestamp, StreamError>)
      ensures r.Success? <==> ts.Simple?
      ensures r.Failure? ==> r.error == NotSimpleTimestamp
      ensures r.Success? && ts.address < INT64_MAX ==> r.value == Simple(ts.address + 1)
      ensures r.Success? && ts.address == INT64_MAX ==> r.value == Simple(INT64_MIN)
    {
      if ts.Simple? then Success(Simple(Wrap64(ts.address + 1))) else Failure(NotSimpleTimestamp)
    }

    /** `getPreviousTimestamp(ts)`: the address minus one, with `long` wrap-around. */
    function PreviousTimestamp(ts: Timestamp): (r: Result<Timestamp, StreamError>)
      ensures r.Success? <==> ts.Simple?
      ensures r.Failure? ==> r.error == NotSimpleTimestamp
      ensures r.Success? && ts.address > INT64_MIN ==> r.value == Simple(ts.address - 1)
      ensures r.Success? && ts.address == INT64_MIN ==> r.value == Simple(INT64_MAX)
    {
      if ts.Simple? then Success(Simple(Wrap64(ts.address - 1))) else Failure(NotSimpleTimestamp)
    }

    /** `check(cached)`: the most recently issued token, whatever `cached`
        says. */
    function Check(cached: bool): (r: Timestamp)
      reads sequencer
      ensures r.Simple? && r.address + 1 == sequencer.current
    {
      Simple(sequencer.current - 1)
    }

    /** IStream's `check()`: `check(false)`. */
    function CheckDefault(): (r: Timestamp)
      reads sequencer
      ensures r == Check(false) && r == Check(true)
    {
      Check(false)
    }

    /** `getCurrentPosition()`: the last address the scan consumed. */
    function CurrentPosition(): (r: Timestamp)
      reads this
      ensures r.Simple? && r.address + 1 == pointer
    {
      Simple(pointer - 1)
    }

    lemma NextPreviousInverse(ts: Timestamp)
      requires ts.Simple?
      ensures PreviousTimestamp(NextTimestamp(ts).value) == Success(ts)
      ensures NextTimestamp(PreviousTimestamp(ts).value) == Success(ts)
    {
    }

    /** The next timestamp is later, except at the top of the `long` range,
        where it wraps to the least one. */
    lemma NextIsLater(ts: Timestamp)
      requires ts.Simple?
      ensures CompareTo(ts, Some(NextTimestamp(ts).value)) == Success(if ts.address < INT64_MAX then Less else Greater)
    {
    }
  }

  // ---------------------------------------------------------------------
  // Properties of the scan.

  lemma {:induction false} PointerAfterBounds(slots: map<int, Slot>, lo: int, i: int)
    ensures lo <= PointerAfter(slots, lo, i) <= (if i < lo then lo else i)
    decreases i - lo
  {
    if i > lo && !(i - 1 in slots && slots[i - 1].Stored? && slots[i - 1].item.Decoded?) {
      PointerAfterBounds(slots, lo, i - 1);
    }
  }

  /** An undecodable address does not, on its own, move the pointer: a scan
      over undecodable addresses only leaves it where it was. */
  lemma {:induction false} PointerAfterUndecodable(slots: map<int, Slot>, lo: int, i: int)
    requires forall j :: lo <= j < i ==> j in slots && slots[j] == Stored(Undecodable)
    ensures PointerAfter(slots, lo, i) == lo
    decreases i - lo
  {
    if i > lo {
      PointerAfterUndecodable(slots, lo, i - 1);
    }
  }

  /** The pointer ends up past every entry the scan decoded, foreign ones
      included. */
  lemma {:induction false} PointerAfterPassesDecoded(slots: map<int, Slot>, lo: int, i: int, j: int)
    requires lo <= j < i && j in slots && slots[j].Stored? && slots[j].item.Decoded?
    ensures PointerAfter(slots, lo, i) > j
    decreases i - lo
  {
    if i - 1 != j && !(i - 1 in slots && slots[i - 1].Stored? && slots[i - 1].item.Decoded?) {
      PointerAfterPassesDecoded(slots, lo, i - 1, j);
    }
  }

  /** The scan's stopping address is determined by the log: it is the first
      address in range that cannot be passed. */
  lemma ScanStopUnique(slots: map<int, Slot>, id: UUID, lo: int, hi: int, a: int, b: int)
    requires ScanStop(slots, id, lo, hi, a) && ScanStop(slots, id, lo, hi, b)
    ensures a == b
  {
  }

  /** A returned entry is the first entry of the stream at or after the pointer. */
  lemma ScanFindsFirstOwn(slots: map<int, Slot>, id: UUID, lo: int, hi: int, at: int)
    requires ScanStop(slots, id, lo, hi, at) && at < hi && OwnEntryAt(slots, id, at)
    ensures forall j :: lo <= j < at ==> !OwnEntryAt(slots, id, j)
  {
    forall j | lo <= j < at ensures !OwnEntryAt(slots, id, j) {
      assert Passable(slots, id, j);
    }
  }

  /** A scan that runs to its bound found no entry of the stream in range. */
  lemma ScanExhaustedHasNone(slots: map<int, Slot>, id: UUID, lo: int, hi: int, at: int)
    requires ScanStop(slots, id, lo, hi, at) && at >= hi
    ensures forall j :: lo <= j < hi ==> !OwnEntryAt(slots, id, j) && j in slots
  {
    forall j | lo <= j < hi ensures !OwnEntryAt(slots, id, j) && j in slots {
      assert Passable(slots, id, j);
    }
  }

  /** A fresh log: appending `a`, `b` and `c` to a stream and reading it back
      yields them in order and then nothing, and leaves the position at the
      third append's timestamp. */
  method AppendThenReadBack(id: UUID, a: Object, b: Object, c: Object)
    returns (appended: seq<Result<Timestamp, StreamError>>, read: seq<Result<Option<Object>, StreamError>>, position: Timestamp)
    ensures appended == [Success(Simple(0)), Success(Simple(1)), Success(Simple(2))]
    ensures read == [Success(Some(a)), Success(Some(b)), Success(Some(c)), Success(None)]
    ensures position == Simple(2)
  {
    var sequencer := new Sequencer();
    var store := new LogStore();
    var s := new SimpleStream(id, sequencer, store);
    var t0 := s.Append(a);
    var t1 := s.Append(b);
    var t2 := s.Append(c);
    appended := [t0, t1, t2];
    read := [];
    var k := 0;
    while k < 4
      invariant 0 <= k <= 4 && s.pointer == if k < 3 then k else 3
      invariant s.streamID == id && s.store == store && s.sequencer == sequencer && sequencer.current == 3
      invariant store.slots == map[0 := Stored(Decoded(StreamEntry({id}, a, Simple(0)))),
                                   1 := Stored(Decoded(StreamEntry({id}, b, Simple(1)))),
                                   2 := Stored(Decoded(StreamEntry({id}, c, Simple(2))))]
      invariant read == [Success(Some(a)), Success(Some(b)), Success(Some(c)), Success(None)][..k]
    {
      var r;
      ghost var next, at;
      r, next, at := s.ReadNextObject();
      if k < 3 {
        assert !Passable(store.slots, id, k);
      }
      read := read + [r];
      k := k + 1;
    }
    position := s.CurrentPosition();
  }
}
