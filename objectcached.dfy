/** The object-cached write-once address space. Routing, views and retries
    are those of the plain variant, with two differences: a write reaches
    only the head of the chain (the `return` sits inside the loop over the
    chain), and after a NetworkException it is simply retried under the next
    view, with no read-back. `readObject` memoises decoded objects by
    (log, address). */
module ObjectCachedAddressSpace {
  import opened Base
  import opened LogUnits
  import opened Views
  import opened Cluster
  import WriteOnceAddressSpace

  type CacheKey = (UUID, Int64)

  /** What holds between attempts of the cached `write`: the write stays
      confined to head slots, and over a reliable transport to a current head
      nothing has happened yet. */
  ghost predicate HeadInv(e0: Env, e: Env, address: Int64, data: Bytes, clean: bool) {
    && Valid(e0) && Valid(e) && e.views == e0.views && e0.current <= e.current
    && Confined(e0.units, e.units, data, address, e.views, e0.current, e.current, true)
    && (Reliable(e0.links) ==> Reliable(e.links))
    && (clean ==> e == e0 && Reliable(e0.links) && HeadCurrent(e0, address))
  }

  /** One attempt of the cached `write`: the head of the routed chain is
      written. Success leaves the data at the head, OVERWRITE or TRIMMED is a
      refusal by the head, a NetworkException can only come from a lost
      request or reply or a stale epoch, and after it the next view carries
      the invariant on. */
  lemma {:induction false} HeadStep(e0: Env, e: Env, address: Int64, data: Bytes, clean: bool)
    requires HeadInv(e0, e, address, data, clean) && Locate(CurrentView(e), address).Success?
    ensures var v := CurrentView(e);
      var rt := Locate(v, address).value;
      var s := SendWrite(e, HeadOf(v, e.units.Keys, address), rt.mapped, data);
      && Valid(s.0) && s.0.views == e0.views && s.0.current == e.current
      && Confined(e0.units, s.0.units, data, address, s.0.views, e0.current, s.0.current, true)
      && (s.1 == None ==> Holds(s.0.units, HeadOf(CurrentView(s.0), s.0.units.Keys, address), rt.mapped, data))
      && (s.1.Some? && s.1.value != Network ==>
            (s.1.value.Overwrite? || s.1.value.Trimmed?) && RefusedAt(s.0, address, data, 0, s.1.value))
      && (clean ==> s.1 != Some(Network))
      && (Reliable(e0.links) ==> Reliable(s.0.links))
      && (s.1 == Some(Network) && InvalidateViewAndWait(s.0).Some? ==>
            HeadInv(e0, InvalidateViewAndWait(s.0).value, address, data, clean))
  {
    var v := CurrentView(e);
    var rt := Locate(v, address).value;
    var head := HeadOf(v, e.units.Keys, address);
    ConfinedSendWrite(e0, e, head, rt.mapped, data, address, true);
    var s := SendWrite(e, head, rt.mapped, data);
    ConfinedLater(e0.units, s.0.units, data, address, e.views, e0.current, e.current, e.current + 1, true);
    if Reliable(e0.links) {
      ReliableRest(e.links);
    }
  }

  class ObjectCachedWriteOnceAddressSpace {
    const logID: UUID
    /** Deserialization; `None` when the bytes do not decode. */
    const decode: Bytes -> Option<Object>
    /** The object cache, shared by every address space of the process. */
    var cache: map<CacheKey, Object>

    constructor (logID: UUID, decode: Bytes -> Option<Object>, cache: map<CacheKey, Object>)
      ensures this.logID == logID && this.decode == decode && this.cache == cache
    {
      this.logID := logID;
      this.decode := decode;
      this.cache := cache;
    }

    /** `write(address, data)`: the head of the routed chain is written, and
        nothing else. OVERWRITE and TRIMMED end the operation. */
    method Write(e0: Env, address: Int64, data: Bytes) returns (e: Env, r: Outcome<OpError>)
      requires Valid(e0)
      ensures Valid(e) && e.views == e0.views && e0.current <= e.current
      ensures Confined(e0.units, e.units, data, address, e.views, e0.current, e.current, true)
      ensures r.Pass? ==> Locate(CurrentView(e), address).Success? &&
                          Holds(e.units, HeadOf(CurrentView(e), e.units.Keys, address),
                                Locate(CurrentView(e), address).value.mapped, data)
      ensures r.Fail? ==> r.error.UnitError? || r.error.BadRoute? || r.error.Blocked?
      ensures r.Fail? && r.error.UnitError? ==>
                (r.error.failure.Overwrite? || r.error.failure.Trimmed?) && RefusedAt(e, address, data, 0, r.error.failure)
      ensures r.Fail? && r.error.BadRoute? ==> Locate(CurrentView(e), address) == Failure(r.error.route)
      ensures r == Fail(Blocked) ==> e.current == |e.views| - 1
      ensures Reliable(e0.links) ==> Reliable(e.links)
      ensures Reliable(e0.links) && HeadCurrent(e0, address) ==> r != Fail(Blocked) && e.current == e0.current
      ensures Reliable(e0.links) && HeadCurrent(e0, address) && r.Fail? && r.error.UnitError? ==>
                e.units == e0.units && RefusedAt(e0, address, data, 0, r.error.failure)
      ensures Reliable(e0.links) && HeadCurrent(e0, address) && Locate(CurrentView(e0), address).Success? ==>
                (r == Pass <==>
                   Locate(CurrentView(e0), address).value.mapped !in e0.units[HeadOf(CurrentView(e0), e0.units.Keys, address)].cells)
    {
      e := e0;
      ConfinedStart(e0.units, data, address, e0.views, e0.current, true);
      ghost var clean := Reliable(e0.links) && HeadCurrent(e0, address);
      while true
        invariant HeadInv(e0, e, address, data, clean)
        decreases |e.views| - e.current
      {
        var v := CurrentView(e);
        var loc := Locate(v, address);
        if loc.Failure? {
          return e, Fail(BadRoute(loc.error));
        }
        var head := HeadOf(v, e.units.Keys, address);
        HeadStep(e0, e, address, data, clean);
        var sent := SendWrite(e, head, loc.value.mapped, data);
        if sent.1 == None {
          return sent.0, Pass;
        }
        if sent.1.value != Network {
          return sent.0, Fail(UnitError(sent.1.value));
        }
        var next := InvalidateViewAndWait(sent.0);
        if next.None? {
          return sent.0, Fail(Blocked);
        }
        e := next.value;
      }
    }

    /** `read(address)`: the same retry loop as the plain variant's. */
    method Read(e0: Env, address: Int64) returns (e: Env, r: Result<Bytes, OpError>)
      requires Valid(e0)
      ensures Valid(e) && e.units == e0.units && e.views == e0.views && e0.current <= e.current
      ensures r != Failure(Blocked) ==> r == TailRead(e, address)
      ensures r == Failure(Blocked) ==> e.current == |e.views| - 1
      ensures Reliable(e0.links) ==> e.current == e0.current && r == TailRead(e0, address) && Reliable(e.links)
    {
      e, r := WriteOnceAddressSpace.Read(e0, address);
    }

    /** `readObject(address)`: a cached object is returned without touching
        storage; otherwise the address is read and decoded, and a decoded
        object is cached under (log, address). */
    method ReadObject(e0: Env, address: Int64) returns (e: Env, r: Result<Object, OpError>)
      requires Valid(e0)
      modifies this
      ensures (logID, address) in old(cache) ==>
                e == e0 && r == Success(old(cache)[(logID, address)]) && cache == old(cache)
      ensures (logID, address) !in old(cache) ==>
                Valid(e) && e.units == e0.units && e.views == e0.views && e0.current <= e.current
      ensures (logID, address) !in old(cache) && r != Failure(Blocked) ==> r == DecodedRead(e, address, decode)
      ensures (logID, address) !in old(cache) && r == Failure(Blocked) ==> e.current == |e.views| - 1
      ensures (logID, address) !in old(cache) && Reliable(e0.links) ==>
                e.current == e0.current && r == DecodedRead(e0, address, decode) && Reliable(e.links)
      ensures (logID, address) !in old(cache) ==>
                cache == if r.Success? then old(cache)[(logID, address) := r.value] else old(cache)
    {
      if (logID, address) in cache {
        return e0, Success(cache[(logID, address)]);
      }
      var data;
      e, data := Read(e0, address);
      if data.Failure? {
        return e, Failure(data.error);
      }
      var o := decode(data.value);
      if o.None? {
        return e, Failure(Undecodable);
      }
      cache := cache[(logID, address) := o.value];
      return e, Success(o.value);
    }
  }
}
