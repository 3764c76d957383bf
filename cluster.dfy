/** The world an address space talks to: the log units, the topology
    provider and the transport between them. None of it is owned by the
    address space, so it is a value `Env` that each address-space operation
    takes and returns.

    - The topology provider is the fixed sequence `views` of views it will
      hand out; `current` indexes the one in use. Invalidating the view moves
      to the next one; when there is none, the source would wait forever and
      the model reports `Blocked`.
    - The transport is the sequence `links`, consumed one entry per request
      to a unit: a request is delivered, lost on the way, or carried out with
      its reply lost. Once the sequence is used up every request is
      delivered. */
module Cluster {
  import opened Base
  import opened LogUnits
  import opened Views

  datatype Link = Delivered | RequestLost | ReplyLost

  datatype Env = Env(units: map<UnitId, LogUnit>, views: seq<View>, current: nat, links: seq<Link>)

  ghost predicate Valid(e: Env) {
    && e.current < |e.views|
    && forall i :: 0 <= i < |e.views| ==> WellFormed(e.views[i], e.units.Keys)
  }

  function CurrentView(e: Env): (v: View)
    requires Valid(e)
    ensures WellFormed(v, e.units.Keys)
  {
    e.views[e.current]
  }

  function NextLink(links: seq<Link>): Link {
    if links == [] then Delivered else links[0]
  }

  function RestLinks(links: seq<Link>): seq<Link> {
    if links == [] then [] else links[1..]
  }

  /** Every request sent over `links` is delivered and answered. */
  ghost predicate Reliable(links: seq<Link>) {
    forall i :: 0 <= i < |links| ==> links[i] == Delivered
  }

  lemma ReliableRest(links: seq<Link>)
    requires Reliable(links)
    ensures NextLink(links) == Delivered && Reliable(RestLinks(links))
  {
    if links != [] {
      forall i | 0 <= i < |links| - 1 ensures links[1..][i] == Delivered {
        assert links[1..][i] == links[i + 1];
      }
    }
  }

  /** `links` after `n` requests have used it up front. */
  function Drop(links: seq<Link>, n: nat): seq<Link> {
    if n <= |links| then links[n..] else []
  }

  /** The first `n` requests sent over `links` are delivered and answered. */
  ghost predicate DeliveredBefore(links: seq<Link>, n: nat) {
    forall i :: 0 <= i < n && i < |links| ==> links[i] == Delivered
  }

  /** `u` holds `data` at its address `m`. */
  ghost predicate Holds(units: map<UnitId, LogUnit>, u: UnitId, m: int, data: Bytes) {
    u in units && m in units[u].cells && units[u].cells[m] == Filled(data)
  }

  /** The unit refuses a write at `m` under `epoch` with the terminal failure `f`. */
  ghost predicate Refuses(u: LogUnit, epoch: int, m: int, f: UnitFailure) {
    && epoch >= u.epoch && m in u.cells
    && (|| (f == Overwrite(m) && u.cells[m].Filled?)
        || (f == Trimmed(m) && u.cells[m].TrimmedCell?))
  }

  /** A write request to unit `u`, tagged with the current view's epoch. */
  function SendWrite(e: Env, u: UnitId, m: int, data: Bytes): (r: (Env, Option<UnitFailure>))
    requires Valid(e) && u in e.units
    ensures Valid(r.0)
    ensures r.0.views == e.views && r.0.current == e.current && r.0.links == RestLinks(e.links)
    ensures r.0.units.Keys == e.units.Keys
    ensures forall w :: w in e.units && w != u ==> r.0.units[w] == e.units[w]
    ensures r.0.units[u] == e.units[u] ||
            (m !in e.units[u].cells && r.0.units[u] == e.units[u].(cells := e.units[u].cells[m := Filled(data)]))
    ensures r.1 == None <==> NextLink(e.links) == Delivered && CurrentView(e).epoch >= e.units[u].epoch && m !in e.units[u].cells
    ensures r.1 == None ==> Holds(r.0.units, u, m, data)
    ensures r.1 == Some(Network) <==> NextLink(e.links) != Delivered || CurrentView(e).epoch < e.units[u].epoch
    ensures r.1.Some? && r.1.value != Network ==>
              r.0.units == e.units && Refuses(e.units[u], CurrentView(e).epoch, m, r.1.value)
    ensures NextLink(e.links) == RequestLost ==> r.0.units == e.units
    ensures NextLink(e.links) != RequestLost && CurrentView(e).epoch >= e.units[u].epoch && m !in e.units[u].cells ==>
              Holds(r.0.units, u, m, data)
  {
    var (u', f) := ClientWrite(e.units[u], CurrentView(e).epoch, m, data);
    ClientWriteOutcomes(e.units[u], CurrentView(e).epoch, m, data);
    var e' := e.(links := RestLinks(e.links));
    match NextLink(e.links)
    case Delivered => (e'.(units := e.units[u := u']), f)
    case RequestLost => (e', Some(Network))
    case ReplyLost => (e'.(units := e.units[u := u']), Some(Network))
  }

  /** A unit write never empties or changes a filled cell. */
  lemma SendWriteKeepsHolds(e: Env, u: UnitId, m: int, data: Bytes)
    requires Valid(e) && u in e.units
    ensures forall w, m', d :: Holds(e.units, w, m', d) ==> Holds(SendWrite(e, u, m, data).0.units, w, m', d)
  {
  }

  /** A read request to unit `u`; it changes nothing but the transport. */
  function SendRead(e: Env, u: UnitId, m: int): (r: (Env, Result<Bytes, UnitFailure>))
    requires Valid(e) && u in e.units
    ensures r.0 == e.(links := RestLinks(e.links))
    ensures r.1.Failure? && r.1.error != Network ==> r.1 == ClientRead(e.units[u], m)
    ensures r.1.Success? ==> r.1 == ClientRead(e.units[u], m)
    ensures NextLink(e.links) == Delivered <==> r.1 != Failure(Network)
  {
    ClientReadOutcomes(e.units[u], m);
    (e.(links := RestLinks(e.links)),
     if NextLink(e.links) == Delivered then ClientRead(e.units[u], m) else Failure(Network))
  }

  /** `client.invalidateViewAndWait`: move on to the next view, if the
      topology provider has one. */
  function InvalidateViewAndWait(e: Env): (r: Option<Env>)
    requires Valid(e)
    ensures r.Some? <==> e.current + 1 < |e.views|
    ensures r.Some? ==> Valid(r.value) && r.value == e.(current := e.current + 1)
  {
    if e.current + 1 < |e.views| then Some(e.(current := e.current + 1)) else None
  }

  // ---------------------------------------------------------------------
  // What both address-space variants promise.

  /** No unit of the chain `address` routes to has moved past the epoch of
      the view in use, so none refuses a write as stale. */
  ghost predicate ChainCurrent(e: Env, address: Int64)
    requires Valid(e)
  {
    var v := CurrentView(e);
    Locate(v, address).Success? ==>
      var c := ChainOf(v, Locate(v, address).value.group);
      forall k :: 0 <= k < |c| ==> c[k] in e.units && e.units[c[k]].epoch <= v.epoch
  }

  /** The head of the chain `address` routes to has not moved past the epoch
      of the view in use. */
  ghost predicate HeadCurrent(e: Env, address: Int64)
    requires Valid(e)
  {
    var v := CurrentView(e);
    Locate(v, address).Success? ==>
      var h := HeadOf(v, e.units.Keys, address);
      e.units[h].epoch <= v.epoch
  }

  /** Over a reliable transport, writing unit `k` of a current chain raises
      no NetworkException, and leaves the transport reliable and the chain
      current. */
  lemma {:induction false} ChainSendReliable(e: Env, address: Int64, c: Chain, m: int, k: nat, data: Bytes)
    requires Valid(e) && Locate(CurrentView(e), address).Success?
    requires Locate(CurrentView(e), address).value.mapped == m
    requires c == ChainOf(CurrentView(e), Locate(CurrentView(e), address).value.group) && k < |c|
    requires c[k] in e.units
    requires Reliable(e.links) && ChainCurrent(e, address)
    ensures SendWrite(e, c[k], m, data).1 != Some(Network)
    ensures Reliable(SendWrite(e, c[k], m, data).0.links) && ChainCurrent(SendWrite(e, c[k], m, data).0, address)
  {
    ReliableRest(e.links);
    var v := CurrentView(e);
    var e' := SendWrite(e, c[k], m, data).0;
    forall j | 0 <= j < |c| ensures c[j] in e'.units && e'.units[c[j]].epoch <= v.epoch {
      assert c[j] in e.units && e.units[c[j]].epoch <= v.epoch;
    }
  }

  /** A unit write changes no unit's epoch, so a current chain stays current. */
  lemma {:induction false} SendWriteKeepsCurrent(e: Env, address: Int64, u: UnitId, m: int, data: Bytes)
    requires Valid(e) && u in e.units && ChainCurrent(e, address)
    ensures ChainCurrent(SendWrite(e, u, m, data).0, address)
  {
    var v := CurrentView(e);
    var e' := SendWrite(e, u, m, data).0;
    ClientWriteOutcomes(e.units[u], v.epoch, m, data);
    if Locate(v, address).Success? {
      var c := ChainOf(v, Locate(v, address).value.group);
      forall j | 0 <= j < |c| ensures c[j] in e'.units && e'.units[c[j]].epoch <= v.epoch {
        assert c[j] in e.units && e.units[c[j]].epoch <= v.epoch;
      }
    }
  }

  /** The failures an address-space operation surfaces. A NetworkException
      never escapes: it is retried. */
  datatype OpError =
    | UnitError(failure: UnitFailure)  // OVERWRITE, TRIMMED or UNWRITTEN from a unit
    | BadRoute(route: RouteError)      // a negative address routed to a negative group
    | Undecodable                      // the bytes do not deserialize
    | Blocked                          // the topology provider has no further view

  /** The tail of the chain `address` routes to in `v`: the one unit a read
      consults. */
  function TailOf(v: View, units: set<UnitId>, address: Int64): (u: UnitId)
    requires WellFormed(v, units) && Locate(v, address).Success?
    ensures u in units
  {
    var g := Locate(v, address).value.group;
    ChainMembers(v, units, g);
    ChainOf(v, g)[|ChainOf(v, g)| - 1]
  }

  /** The head of that chain: the first unit a write reaches. */
  function HeadOf(v: View, units: set<UnitId>, address: Int64): (u: UnitId)
    requires WellFormed(v, units) && Locate(v, address).Success?
    ensures u in units
  {
    var g := Locate(v, address).value.group;
    ChainMembers(v, units, g);
    ChainOf(v, g)[0]
  }

  /** The head of the chain `address` routes to has the mapped address free. */
  ghost predicate HeadFree(e: Env, address: Int64)
    requires Valid(e) && Locate(CurrentView(e), address).Success?
  {
    Locate(CurrentView(e), address).value.mapped !in e.units[HeadOf(CurrentView(e), e.units.Keys, address)].cells
  }

  /** What a fault-free read of `address` yields from `units` under view `v`:
      what the tail unit holds at the mapped address. */
  ghost function ReadAt(units: map<UnitId, LogUnit>, v: View, address: Int64): Result<Bytes, OpError>
    requires WellFormed(v, units.Keys)
  {
    match Locate(v, address)
    case Failure(re) => Failure(BadRoute(re))
    case Success(rt) =>
      match ClientRead(units[TailOf(v, units.Keys, address)], rt.mapped)
      case Success(b) => Success(b)
      case Failure(f) => Failure(UnitError(f))
  }

  /** The reference definition of the address-space read: a fault-free read
      under the current view. */
  ghost function TailRead(e: Env, address: Int64): Result<Bytes, OpError>
    requires Valid(e)
  {
    ReadAt(e.units, CurrentView(e), address)
  }

  /** The reference definition of `readObject`: the tail read, deserialized. */
  ghost function DecodedRead(e: Env, address: Int64, decode: Bytes -> Option<Object>): Result<Object, OpError>
    requires Valid(e)
  {
    match TailRead(e, address)
    case Failure(f) => Failure(f)
    case Success(b) => if decode(b).Some? then Success(decode(b).value) else Failure(Undecodable)
  }

  /** Every member of the chain `address` routes to holds `data`. */
  ghost predicate ChainHolds(e: Env, address: Int64, data: Bytes)
    requires Valid(e)
  {
    var v := CurrentView(e);
    && Locate(v, address).Success?
    && var rt := Locate(v, address).value;
       forall k :: 0 <= k < |ChainOf(v, rt.group)| ==> Holds(e.units, ChainOf(v, rt.group)[k], rt.mapped, data)
  }

  /** The chain `address` routes to under the view in use. */
  ghost function RoutedChain(e: Env, address: Int64): (c: Chain)
    requires Valid(e) && Locate(CurrentView(e), address).Success?
    ensures |c| > 0 && forall k :: 0 <= k < |c| ==> c[k] in e.units
  {
    var v := CurrentView(e);
    ChainMembers(v, e.units.Keys, Locate(v, address).value.group);
    ChainOf(v, Locate(v, address).value.group)
  }

  /** `address` routes to a chain of distinct units, none of which has
      anything at the mapped address yet. */
  ghost predicate ChainFree(e: Env, address: Int64)
    requires Valid(e)
  {
    var v := CurrentView(e);
    && Locate(v, address).Success?
    && var m := Locate(v, address).value.mapped;
       var c := RoutedChain(e, address);
       && (forall i, j :: 0 <= i < j < |c| ==> c[i] != c[j])
       && (forall i :: 0 <= i < |c| ==> m !in e.units[c[i]].cells)
  }

  /** Every unit of `b` outside `s` is as it was. */
  ghost predicate UnchangedOutside(b: map<UnitId, LogUnit>, a: map<UnitId, LogUnit>, s: seq<UnitId>) {
    forall w :: w in b && w !in s ==> w in a && a[w] == b[w]
  }

  /** Changing at most `c[k]` extends the units left alone by `c[..k]` to `c[..k + 1]`. */
  lemma {:induction false} UnchangedOutsideStep(b: map<UnitId, LogUnit>, a: map<UnitId, LogUnit>, a': map<UnitId, LogUnit>,
                                                c: seq<UnitId>, k: nat)
    requires k < |c| && UnchangedOutside(b, a, c[..k])
    requires forall w :: w in a && w != c[k] ==> w in a' && a'[w] == a[w]
    ensures UnchangedOutside(b, a', c[..k + 1])
  {
    forall w | w in b && w !in c[..k + 1] ensures w in a' && a'[w] == b[w] {
      assert c[k] in c[..k + 1];
      assert forall j :: 0 <= j < k ==> c[..k][j] == c[..k + 1][j];
    }
  }

  /** A chain that holds `data` still holds it under the next view when that
      view keeps segment 0. */
  lemma ChainHoldsNextView(e: Env, address: Int64, data: Bytes)
    requires Valid(e) && ChainHolds(e, address, data) && e.current + 1 < |e.views|
    requires e.views[e.current + 1].segments[0] == CurrentView(e).segments[0]
    ensures Valid(e.(current := e.current + 1)) && ChainHolds(e.(current := e.current + 1), address, data)
  {
    var v, w := CurrentView(e), e.views[e.current + 1];
    LocateUsesSegmentZero(v, w, address);
    var rt := Locate(v, address).value;
    assert ChainOf(w, rt.group) == ChainOf(v, rt.group);
  }

  /** The `k`-th member of the routed chain refused the write with `f`, after
      every member before it had accepted. */
  ghost predicate RefusedAt(e: Env, address: Int64, data: Bytes, k: nat, f: UnitFailure)
    requires Valid(e)
  {
    var v := CurrentView(e);
    && Locate(v, address).Success?
    && var rt := Locate(v, address).value;
       var c := ChainOf(v, rt.group);
       && k < |c| && c[k] in e.units
       && Refuses(e.units[c[k]], v.epoch, rt.mapped, f)
       && forall j :: 0 <= j < k ==> Holds(e.units, c[j], rt.mapped, data)
  }

  /** `u` is on the chain `address` routes to in `v` (its head, when
      `headOnly`), and `m` is the mapped address. */
  ghost predicate OnRoute(v: View, address: Int64, u: UnitId, m: int, headOnly: bool) {
    && Shaped(v)
    && Locate(v, address).Success?
    && Locate(v, address).value.mapped == m
    && var c := ChainOf(v, Locate(v, address).value.group);
       if headOnly then u == c[0] else u in c
  }

  /** From `b` to `a` a unit keeps its epoch and every cell it had, and each
      cell it gains holds `data` at a slot that `address` routes to under one
      of the views `views[lo..hi]`. */
  ghost predicate UnitConfined(b: LogUnit, a: LogUnit, u: UnitId, data: Bytes, address: Int64,
                               views: seq<View>, lo: nat, hi: nat, headOnly: bool) {
    && a.epoch == b.epoch
    && (forall m :: m in b.cells ==> m in a.cells && a.cells[m] == b.cells[m])
    && (forall m :: m in a.cells && m !in b.cells ==>
          a.cells[m] == Filled(data) &&
          exists i :: lo <= i <= hi && i < |views| && OnRoute(views[i], address, u, m, headOnly))
  }

  /** What a write of `data` at `address` may do to the units: nothing is
      overwritten, and only slots `address` routes to gain `data`. */
  ghost predicate Confined(b: map<UnitId, LogUnit>, a: map<UnitId, LogUnit>, data: Bytes, address: Int64,
                           views: seq<View>, lo: nat, hi: nat, headOnly: bool) {
    && b.Keys == a.Keys
    && forall u :: u in b ==> UnitConfined(b[u], a[u], u, data, address, views, lo, hi, headOnly)
  }

  lemma ConfinedStart(units: map<UnitId, LogUnit>, data: Bytes, address: Int64, views: seq<View>, lo: nat, headOnly: bool)
    ensures Confined(units, units, data, address, views, lo, lo, headOnly)
  {
  }

  /** Using a later view keeps a write confined. */
  lemma {:induction false} ConfinedLater(b: map<UnitId, LogUnit>, a: map<UnitId, LogUnit>, data: Bytes, address: Int64,
                                         views: seq<View>, lo: nat, hi: nat, hi': nat, headOnly: bool)
    requires Confined(b, a, data, address, views, lo, hi, headOnly) && hi <= hi'
    ensures Confined(b, a, data, address, views, lo, hi', headOnly)
  {
    forall u | u in b ensures UnitConfined(b[u], a[u], u, data, address, views, lo, hi', headOnly) {
      forall m | m in a[u].cells && m !in b[u].cells
        ensures exists i :: lo <= i <= hi' && i < |views| && OnRoute(views[i], address, u, m, headOnly)
      {
        var i :| lo <= i <= hi && i < |views| && OnRoute(views[i], address, u, m, headOnly);
      }
    }
  }

  /** Two confined stretches of a write make one. */
  lemma {:induction false} ConfinedTrans(a: map<UnitId, LogUnit>, b: map<UnitId, LogUnit>, c: map<UnitId, LogUnit>, data: Bytes,
                                         address: Int64, views: seq<View>, lo: nat, mid: nat, hi: nat, headOnly: bool)
    requires Confined(a, b, data, address, views, lo, mid, headOnly)
    requires Confined(b, c, data, address, views, mid, hi, headOnly)
    requires lo <= mid <= hi
    ensures Confined(a, c, data, address, views, lo, hi, headOnly)
  {
    forall u | u in a ensures UnitConfined(a[u], c[u], u, data, address, views, lo, hi, headOnly) {
      forall m | m in c[u].cells && m !in a[u].cells
        ensures c[u].cells[m] == Filled(data) &&
                exists i :: lo <= i <= hi && i < |views| && OnRoute(views[i], address, u, m, headOnly)
      {
        if m in b[u].cells {
          var i :| lo <= i <= mid && i < |views| && OnRoute(views[i], address, u, m, headOnly);
        } else {
          var i :| mid <= i <= hi && i < |views| && OnRoute(views[i], address, u, m, headOnly);
        }
      }
    }
  }

  /** A write request to a unit on the route under the current view keeps
      the write confined. */
  lemma {:induction false} ConfinedSendWrite(e0: Env, e: Env, u: UnitId, m: int, data: Bytes, address: Int64, headOnly: bool)
    requires Valid(e) && e.views == e0.views && e0.current <= e.current && u in e.units
    requires Confined(e0.units, e.units, data, address, e.views, e0.current, e.current, headOnly)
    requires OnRoute(CurrentView(e), address, u, m, headOnly)
    ensures Confined(e0.units, SendWrite(e, u, m, data).0.units, data, address, e.views, e0.current, e.current, headOnly)
  {
    var a' := SendWrite(e, u, m, data).0.units;
    forall w | w in e0.units ensures UnitConfined(e0.units[w], a'[w], w, data, address, e.views, e0.current, e.current, headOnly) {
      if w == u && a'[w] != e.units[w] {
        forall n | n in a'[w].cells && n !in e0.units[w].cells
          ensures a'[w].cells[n] == Filled(data) &&
                  exists i :: e0.current <= i <= e.current && i < |e.views| && OnRoute(e.views[i], address, w, n, headOnly)
        {
          if n == m {
            assert OnRoute(e.views[e.current], address, w, n, headOnly);
          } else {
            assert n in e.units[w].cells;
          }
        }
      }
    }
  }

  lemma ReadAfterChainHolds(e: Env, address: Int64, data: Bytes)
    requires Valid(e) && ChainHolds(e, address, data)
    ensures TailRead(e, address) == Success(data)
  {
    var v := CurrentView(e);
    var rt := Locate(v, address).value;
    var c := ChainOf(v, rt.group);
    assert Holds(e.units, c[|c| - 1], rt.mapped, data);
  }

  /** No unit serves two replica groups of segment 0. */
  ghost predicate DisjointChains(v: View) {
    && Shaped(v)
    && forall g, h, i, j ::
         (0 <= g < GroupCount(v) && 0 <= h < GroupCount(v) && g != h &&
          0 <= i < |ChainOf(v, g)| && 0 <= j < |ChainOf(v, h)|) ==> ChainOf(v, g)[i] != ChainOf(v, h)[j]
  }

  /** A slot a confined write filled, seen under a view that routes like the
      write's views and whose groups share no unit, belongs to `address`. */
  lemma {:induction false} GainedSlotBelongsToAddress(b: map<UnitId, LogUnit>, a: map<UnitId, LogUnit>, data: Bytes, address: Int64,
                                                       views: seq<View>, lo: nat, hi: nat, headOnly: bool, w: View, other: Int64)
    requires Confined(b, a, data, address, views, lo, hi, headOnly)
    requires WellFormed(w, b.Keys) && DisjointChains(w)
    requires forall i :: lo <= i <= hi && i < |views| ==> Shaped(views[i]) && views[i].segments[0] == w.segments[0]
    requires Locate(w, other).Success?
    requires var t := TailOf(w, b.Keys, other);
             Locate(w, other).value.mapped !in b[t].cells && Locate(w, other).value.mapped in a[t].cells
    ensures address == other
  {
    var rt := Locate(w, other).value;
    var t := TailOf(w, b.Keys, other);
    var i :| lo <= i <= hi && i < |views| && OnRoute(views[i], address, t, rt.mapped, headOnly);
    LocateUsesSegmentZero(views[i], w, address);
    var rt2 := Locate(w, address).value;
    var j :| 0 <= j < |ChainOf(w, rt2.group)| && ChainOf(w, rt2.group)[j] == t;
    var last := |ChainOf(w, rt.group)| - 1;
    assert ChainOf(w, rt.group)[last] == t;
    assert rt2.group == rt.group;
    LocateInjective(w, address, other);
  }

  /** Nothing else changes: when every view a write used routes like `w`
      (same segment 0) and `w`'s groups share no unit, a confined write at
      `address` leaves the read of every other address under `w` as it was. */
  lemma {:induction false} WriteLeavesOtherReads(b: map<UnitId, LogUnit>, a: map<UnitId, LogUnit>, data: Bytes, address: Int64,
                                                 views: seq<View>, lo: nat, hi: nat, headOnly: bool, w: View, other: Int64)
    requires Confined(b, a, data, address, views, lo, hi, headOnly)
    requires WellFormed(w, b.Keys) && DisjointChains(w)
    requires forall i :: lo <= i <= hi && i < |views| ==> Shaped(views[i]) && views[i].segments[0] == w.segments[0]
    requires other != address
    ensures WellFormed(w, a.Keys) && ReadAt(a, w, other) == ReadAt(b, w, other)
  {
    if Locate(w, other).Success? {
      var rt := Locate(w, other).value;
      var t := TailOf(w, b.Keys, other);
      assert t == TailOf(w, a.Keys, other);
      if rt.mapped !in b[t].cells && rt.mapped in a[t].cells {
        GainedSlotBelongsToAddress(b, a, data, address, views, lo, hi, headOnly, w, other);
        assert false;
      }
    }
  }
}
