/**
 Choosing an exit (`selector.ts`): the query, and the weighted pick. A draw is a real in [0, 1)
 as the random source promises; the fallback after the loop is where a larger one would end.
 */
module Selector {
  import opened Results

  datatype Relay = Relay(
    id: string, country: string, city: string, weight: nat, active: bool, ipv6Egress: bool, hasIpv4: bool,
    hasIpv6: bool)

  datatype Location = Anywhere | InCountry(country: string) | InCity(country: string, city: string)

  datatype IpAvailability = Both | Ipv4Only | Ipv6Only

  datatype Query = Query(location: Location, ip: IpAvailability, requireIpv6Egress: bool)

  predicate Matches(lower: string -> string, r: Relay, q: Query) {
    && r.active
    && (match q.location
        case Anywhere => true
        case InCountry(country) => lower(r.country) == lower(country)
        case InCity(country, city) => lower(r.country) == lower(country) && lower(r.city) == lower(city))
    && (match q.ip
        case Both => r.hasIpv4 || r.hasIpv6
        case Ipv4Only => r.hasIpv4
        case Ipv6Only => r.hasIpv6)
    && (q.requireIpv6Egress ==> r.ipv6Egress)
  }

  /** The relays a weighted selection chooses among, in order. */
  function Pool(lower: string -> string, relays: seq<Relay>, q: Query): (pool: seq<Relay>)
    ensures forall r :: r in pool <==> r in relays && Matches(lower, r, q) && r.weight > 0
  {
    if relays == [] then []
    else
      var rest := Pool(lower, relays[1..], q);
      assert relays == [relays[0]] + relays[1..];
      if Matches(lower, relays[0], q) && relays[0].weight > 0 then [relays[0]] + rest else rest
  }

  /** The weight of the first `n` relays. */
  function Before(pool: seq<Relay>, n: nat): nat
    requires n <= |pool|
  {
    if n == 0 then 0 else Before(pool, n - 1) + pool[n - 1].weight
  }

  function Total(pool: seq<Relay>): nat {
    Before(pool, |pool|)
  }

  function Roll(draw: real, total: nat): int {
    (draw * total as real).Floor
  }

  /** The loop: each relay takes its weight off the roll until one covers it. */
  method WeightedPick(pool: seq<Relay>, draw: real) returns (at: nat)
    requires pool != [] && draw >= 0.0
    ensures at < |pool|
    ensures Total(pool) == 0 ==> at == 0
    ensures Total(pool) > 0 && draw < 1.0 ==> Covers(pool, at, Roll(draw, Total(pool)))
    ensures Total(pool) > 0 && draw >= 1.0 ==> at == |pool| - 1
  {
    var total := 0;
    for i := 0 to |pool|
      invariant total == Before(pool, i)
    {
      total := total + pool[i].weight;
    }
    if total == 0 {
      return 0;
    }
    ScaledDraw(draw, total);
    ghost var first := Roll(draw, total);
    var roll := Roll(draw, total);
    for i := 0 to |pool|
      invariant roll == first - Before(pool, i) && roll >= 0
    {
      if roll < pool[i].weight {
        if draw >= 1.0 { LastOnly(pool, i); }
        return i;
      }
      roll := roll - pool[i].weight;
    }
    return |pool| - 1;
  }

  lemma ScaledDraw(draw: real, total: nat)
    requires draw >= 0.0 && total > 0
    ensures Roll(draw, total) >= 0
    ensures draw < 1.0 <==> Roll(draw, total) < total
  {
    var t := total as real;
    var scaled := draw * t;
    Scaling(draw, t);
    assert Roll(draw, total) == scaled.Floor;
  }

  lemma Scaling(x: real, t: real)
    requires x >= 0.0 && t > 0.0
    ensures x * t >= 0.0 && (x < 1.0 <==> x * t < t)
  {
    if x < 1.0 { assert (1.0 - x) * t > 0.0; } else { assert (x - 1.0) * t >= 0.0; }
  }

  lemma LastOnly(pool: seq<Relay>, i: nat)
    requires i < |pool|
    ensures Before(pool, i + 1) <= Total(pool)
  {
    BeforeGrows(pool, i + 1, |pool|);
  }

  lemma {:induction false} BeforeGrows(pool: seq<Relay>, i: nat, j: nat)
    requires i <= j <= |pool|
    ensures Before(pool, i) <= Before(pool, j)
  {
    if i < j { BeforeGrows(pool, i, j - 1); }
  }

  lemma PoolHasWeight(pool: seq<Relay>)
    requires pool != [] && pool[0].weight > 0
    ensures Total(pool) > 0
  {
    BeforeGrows(pool, 1, |pool|);
    assert Before(pool, 1) == Before(pool, 0) + pool[0].weight;
  }

  // ---- exactly as often as its weight -----------------------------------------------------------

  /** The roll falls on the relay at `at`. */
  predicate Covers(pool: seq<Relay>, at: nat, roll: int)
    requires at < |pool|
  {
    Before(pool, at) <= roll < Before(pool, at + 1)
  }

  /** Every roll below the total falls on one relay, and on one only. */
  lemma {:induction false} EveryRollFallsOnOne(pool: seq<Relay>, roll: nat)
    requires roll < Total(pool)
    ensures exists at :: 0 <= at < |pool| && Covers(pool, at, roll)
    ensures forall i, j :: 0 <= i < |pool| && 0 <= j < |pool| && Covers(pool, i, roll) && Covers(pool, j, roll) ==>
              i == j
  {
    var at := |pool|;
    while at > 0 && Before(pool, at - 1) > roll
      invariant 0 <= at <= |pool| && Before(pool, at) > roll
    {
      at := at - 1;
    }
    assert Covers(pool, at - 1, roll);
    forall i, j | 0 <= i < j < |pool| ensures !(Covers(pool, i, roll) && Covers(pool, j, roll)) {
      BeforeGrows(pool, i + 1, j);
    }
  }

  function Rolls(pool: seq<Relay>, at: nat): set<int>
    requires at < |pool|
  {
    set roll | 0 <= roll < Total(pool) && Covers(pool, at, roll)
  }

  lemma {:induction false} RangeSize(lo: int, hi: int, s: set<int>)
    requires lo <= hi && forall x :: x in s <==> lo <= x < hi
    ensures |s| == hi - lo
    decreases hi - lo
  {
    if lo < hi {
      RangeSize(lo, hi - 1, s - {hi - 1});
    } else {
      forall x ensures x !in s {}
      assert s == {};
    }
  }

  /** Of the rolls below the total, exactly its weight fall on each relay. */
  lemma PickedByWeight(pool: seq<Relay>, at: nat)
    requires at < |pool|
    ensures |Rolls(pool, at)| == pool[at].weight
  {
    BeforeGrows(pool, at + 1, |pool|);
    var lo, hi, rolls := Before(pool, at), Before(pool, at + 1), Rolls(pool, at);
    forall x ensures x in rolls <==> lo <= x < hi {
      assert x in rolls <==> 0 <= x < Total(pool) && Covers(pool, at, x);
    }
    RangeSize(lo, hi, rolls);
  }

  /** The draws that pick a relay are an interval of length its share. */
  lemma PickedInterval(pool: seq<Relay>, at: nat, draw: real)
    requires at < |pool|
    ensures var scaled := draw * Total(pool) as real;
            Covers(pool, at, scaled.Floor) <==> Before(pool, at) as real <= scaled < Before(pool, at + 1) as real
  {
  }

  method SelectExitWeighted(lower: string -> string, relays: seq<Relay>, q: Query, draw: real)
    returns (r: Option<Relay>, ghost at: nat)
    requires 0.0 <= draw < 1.0
    ensures r.None? <==> forall relay :: relay in relays && Matches(lower, relay, q) ==> relay.weight == 0
    ensures r.Some? ==> r.value in relays && Matches(lower, r.value, q) && r.value.weight > 0
    ensures r.Some? ==> var pool := Pool(lower, relays, q);
              at < |pool| && r.value == pool[at] && Covers(pool, at, Roll(draw, Total(pool)))
  {
    var pool := Pool(lower, relays, q);
    if |pool| == 0 {
      return None, 0;
    }
    assert pool[0] in pool;
    PoolHasWeight(pool);
    var place := WeightedPick(pool, draw);
    assert pool[place] in pool;
    return Some(pool[place]), place;
  }

  // ---- what a query asks ----------------------------------------------------------------------------

  /**
   A city is looked for within its country and a country anywhere; either address family serves a
   query for both; asking for IPv6 egress only narrows; spelling in another case changes nothing; an
   inactive relay never matches.
   */
  lemma QueriesNarrow(lower: string -> string, r: Relay, q: Query, country: string, city: string)
    ensures Matches(lower, r, q.(location := InCity(country, city))) <==>
              Matches(lower, r, q.(location := InCountry(country))) && lower(r.city) == lower(city)
    ensures Matches(lower, r, q.(location := InCountry(country))) <==>
              Matches(lower, r, q.(location := Anywhere)) && lower(r.country) == lower(country)
    ensures Matches(lower, r, q.(ip := Both)) <==>
              Matches(lower, r, q.(ip := Ipv4Only)) || Matches(lower, r, q.(ip := Ipv6Only))
    ensures Matches(lower, r, q.(ip := Ipv4Only)) <==> Matches(lower, r, q.(ip := Both)) && r.hasIpv4
    ensures Matches(lower, r, q.(ip := Ipv6Only)) <==> Matches(lower, r, q.(ip := Both)) && r.hasIpv6
    ensures Matches(lower, r, q.(requireIpv6Egress := true)) <==>
              Matches(lower, r, q.(requireIpv6Egress := false)) && r.ipv6Egress
    ensures Matches(lower, r, Query(Anywhere, Both, false)) <==> r.active && (r.hasIpv4 || r.hasIpv6)
  {
  }
}
