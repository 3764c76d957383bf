/** The cluster view and address routing. A view lists segments, each a list
    of replica groups, each group a replication chain of log units. Routing
    always uses segment 0: a global address goes to group
    `address % groups` at mapped address `address / groups`, with Java's
    `long` remainder and division (both truncate toward zero). */
module Views {
  import opened Base
  import opened LogUnits

  /** A replication chain: writes go head to tail, reads come from the tail. */
  type Chain = seq<UnitId>

  datatype Segment = Segment(groups: seq<Chain>)

  datatype View = View(epoch: int, segments: seq<Segment>)

  /** The shape every view the topology provider hands out has: at least one
      segment, no segment without groups, no empty chain. */
  predicate Shaped(v: View) {
    && |v.segments| > 0
    && (forall s :: 0 <= s < |v.segments| ==> |v.segments[s].groups| > 0)
    && (forall s, g :: 0 <= s < |v.segments| && 0 <= g < |v.segments[s].groups| ==> |v.segments[s].groups[g]| > 0)
  }

  /** A shaped view whose chains name only units of `units`. */
  predicate WellFormed(v: View, units: set<UnitId>) {
    && Shaped(v)
    && forall s, g, k :: 0 <= s < |v.segments| && 0 <= g < |v.segments[s].groups| && 0 <= k < |v.segments[s].groups[g]| ==>
         v.segments[s].groups[g][k] in units
  }

  /** Number of groups of segment 0, the modulus of the routing. */
  function GroupCount(v: View): (n: nat)
    requires Shaped(v)
    ensures n > 0
  {
    |v.segments[0].groups|
  }

  function ChainOf(v: View, g: nat): (c: Chain)
    requires Shaped(v) && g < GroupCount(v)
    ensures |c| > 0
  {
    v.segments[0].groups[g]
  }

  lemma ChainMembers(v: View, units: set<UnitId>, g: nat)
    requires WellFormed(v, units) && g < GroupCount(v)
    ensures forall k :: 0 <= k < |ChainOf(v, g)| ==> ChainOf(v, g)[k] in units
  {
    forall k | 0 <= k < |ChainOf(v, g)| ensures ChainOf(v, g)[k] in units {
      assert ChainOf(v, g)[k] == v.segments[0].groups[g][k];
    }
  }

  // ---------------------------------------------------------------------
  // Java's truncating `%` and `/` on `long`.

  function JavaRem(a: int, n: int): (r: int)
    requires n > 0
    ensures a >= 0 ==> r == a % n
    ensures -n < r < n
    ensures r < 0 ==> a < 0
    ensures a < 0 ==> r <= 0
  {
    if a >= 0 then a % n else -((-a) % n)
  }

  function JavaDiv(a: int, n: int): (q: int)
    requires n > 0
    ensures a >= 0 ==> q == a / n
    ensures q * n + JavaRem(a, n) == a
  {
    if a >= 0 then a / n else -((-a) / n)
  }

  /** Where an address lives: the group index and the address that group's
      units use for it. */
  datatype Route = Route(group: nat, mapped: int)

  /** `chain.get(groupnum)` with a negative `groupnum`. */
  datatype RouteError = IndexOutOfBounds(index: int)

  /** The routing of `write(long, byte[])` and `read(long)`, shared by both
      address-space variants. */
  function Locate(v: View, address: Int64): (r: Result<Route, RouteError>)
    requires Shaped(v)
    ensures r.Success? ==> r.value.group < GroupCount(v)
    ensures r.Success? ==> r.value.mapped * GroupCount(v) + r.value.group == address
    ensures address >= 0 ==> r == Success(Route(address % GroupCount(v), address / GroupCount(v)))
    ensures r.Failure? ==> address < 0
    ensures r.Failure? <==> JavaRem(address, GroupCount(v)) < 0
    ensures r.Failure? ==> r.error == IndexOutOfBounds(JavaRem(address, GroupCount(v)))
    ensures r.Success? ==> r.value == Route(JavaRem(address, GroupCount(v)), JavaDiv(address, GroupCount(v)))
  {
    var n := GroupCount(v);
    var g := JavaRem(address, n);
    if g < 0 then Failure(IndexOutOfBounds(g)) else Success(Route(g, JavaDiv(address, n)))
  }

  /** `a` and `a + n` share a group and sit on neighbouring mapped addresses. */
  lemma {:induction false} LocateAdvance(v: View, a: Int64)
    requires Shaped(v) && a >= 0 && a + GroupCount(v) <= INT64_MAX
    ensures var n := GroupCount(v);
      && Locate(v, a).Success? && Locate(v, a + n).Success?
      && Locate(v, a + n).value.group == Locate(v, a).value.group
      && Locate(v, a + n).value.mapped == Locate(v, a).value.mapped + 1
  {
    var n := GroupCount(v);
    var q, g := a / n, a % n;
    assert a == q * n + g;
    assert a + n == (q + 1) * n + g;
    assert 0 <= g < n;
    DivModUnique(a + n, n, q + 1, g);
  }

  /** Euclidean division is determined by the defining identity. */
  lemma DivModUnique(x: nat, n: nat, q: nat, g: nat)
    requires n > 0 && g < n && x == q * n + g
    ensures x / n == q && x % n == g
  {
    var q', g' := x / n, x % n;
    assert x == q' * n + g';
    if q' < q {
      MulAtLeast(q - q', n);
    } else if q' > q {
      MulAtLeast(q' - q, n);
    }
  }

  lemma MulAtLeast(k: nat, n: nat)
    requires k >= 1
    ensures k * n >= n
  {
    assert k * n == (k - 1) * n + n;
  }

  /** The addresses 0 .. n-1 go to distinct groups. */
  lemma LocateSpreads(v: View, a: Int64, b: Int64)
    requires Shaped(v) && 0 <= a < b < GroupCount(v)
    ensures Locate(v, a).value.group != Locate(v, b).value.group
  {
    DivModUnique(a, GroupCount(v), 0, a);
    DivModUnique(b, GroupCount(v), 0, b);
  }

  /** Different addresses never share a (group, mapped address) slot. */
  lemma LocateInjective(v: View, a: Int64, b: Int64)
    requires Shaped(v) && Locate(v, a).Success? && Locate(v, a) == Locate(v, b)
    ensures a == b
  {
  }

  /** Only segment 0 takes part in routing. */
  lemma LocateUsesSegmentZero(v: View, w: View, a: Int64)
    requires Shaped(v) && Shaped(w) && v.segments[0] == w.segments[0]
    ensures Locate(v, a) == Locate(w, a)
  {
  }
}
