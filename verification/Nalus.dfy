/** Network abstraction layer units, as sequences of bytes with a type in the first one, and the
    aggregation packets that carry several of them. */
module Nalus {
  import opened Options
  import opened Sequences

  type NALU = s: seq<Byte> | s != [] witness [0]

  /** The last unit of a kind. */
  function LastOf(units: seq<NALU>, kind: NALU -> bool): Option<NALU> {
    if units == [] then None
    else
      var u := units[|units| - 1];
      if kind(u) then Some(u) else LastOf(units[..|units| - 1], kind)
  }

  /** The units of a kind, in order. */
  function Filter(units: seq<NALU>, kind: NALU -> bool): (r: seq<NALU>)
    ensures |r| <= |units|
  {
    if units == [] then []
    else
      var u := units[|units| - 1];
      Filter(units[..|units| - 1], kind) + (if kind(u) then [u] else [])
  }

  /** The last unit of a kind is the one that no other unit of the kind follows. */
  lemma {:induction false} LastOfIsLast(units: seq<NALU>, kind: NALU -> bool)
    ensures match LastOf(units, kind)
            case None => NoneFrom(units, kind, 0)
            case Some(u) => exists k: nat :: k < |units| && units[k] == u && kind(u) && NoneFrom(units, kind, k + 1)
    decreases |units|
  {
    if units != [] {
      var n: nat := |units| - 1;
      if kind(units[n]) {
        assert NoneFrom(units, kind, n + 1);
      } else {
        LastOfIsLast(units[..n], kind);
        if LastOf(units[..n], kind).Some? {
          var k: nat :| k < n && units[..n][k] == LastOf(units[..n], kind).value && NoneFrom(units[..n], kind, k + 1);
          NoneFromSnoc(units, kind, k + 1);
          assert units[k] == LastOf(units, kind).value;
        } else {
          NoneFromSnoc(units, kind, 0);
        }
      }
    }
  }

  /** No unit of a kind from index k on. */
  predicate NoneFrom(units: seq<NALU>, kind: NALU -> bool, k: nat) {
    forall j :: k <= j < |units| ==> !kind(units[j])
  }

  lemma {:induction false} NoneFromSnoc(units: seq<NALU>, kind: NALU -> bool, k: nat)
    requires units != [] && !kind(units[|units| - 1]) && NoneFrom(units[..|units| - 1], kind, k)
    ensures NoneFrom(units, kind, k)
  {
    forall j | k <= j < |units| ensures !kind(units[j]) {
      assert j < |units| - 1 ==> units[..|units| - 1][j] == units[j];
    }
  }

  lemma {:induction false} Snoc(units: seq<NALU>, u: NALU, kind: NALU -> bool)
    ensures LastOf(units + [u], kind) == if kind(u) then Some(u) else LastOf(units, kind)
    ensures Filter(units + [u], kind) == if kind(u) then Filter(units, kind) + [u] else Filter(units, kind)
  {
    assert (units + [u])[..|units|] == units;
  }

  predicate All(units: seq<NALU>, kind: NALU -> bool) {
    forall k :: 0 <= k < |units| ==> kind(units[k])
  }

  lemma {:induction false} FilterHolds(units: seq<NALU>, kind: NALU -> bool)
    ensures All(Filter(units, kind), kind)
    decreases |units|
  {
    if units != [] {
      FilterHolds(units[..|units| - 1], kind);
    }
  }

  /** Filtering leaves a sequence alone if everything in it is of the kind, and shortens it otherwise. */
  lemma {:induction false} FilterAll(units: seq<NALU>, kind: NALU -> bool)
    ensures All(units, kind) ==> Filter(units, kind) == units
    ensures !All(units, kind) ==> |Filter(units, kind)| < |units|
    decreases |units|
  {
    if units != [] {
      var n := |units| - 1;
      var u := units[n];
      FilterAll(units[..n], kind);
      assert units == units[..n] + [u];
      assert All(units, kind) <==> All(units[..n], kind) && kind(u);
    }
  }

  lemma {:induction false} FilterAppend(a: seq<NALU>, b: seq<NALU>, kind: NALU -> bool)
    ensures Filter(a + b, kind) == Filter(a, kind) + Filter(b, kind)
    decreases |b|
  {
    if b == [] {
      assert a + b == a;
    } else {
      var rest, u := b[..|b| - 1], b[|b| - 1];
      FilterAppend(a, rest, kind);
      assert b == rest + [u];
      assert a + b == (a + rest) + [u];
      Snoc(a + rest, u, kind);
      Snoc(rest, u, kind);
      Regroup(Filter(a, kind), Filter(rest, kind), [u]);
    }
  }

  /** There is room for what has not been filtered yet. */
  lemma {:induction false} FilterPrefix(units: seq<NALU>, k: nat, kind: NALU -> bool)
    requires k < |units|
    ensures units[..k + 1] == units[..k] + [units[k]]
    ensures |Filter(units[..k + 1], kind)| <= |Filter(units, kind)|
  {
    assert units == units[..k + 1] + units[k + 1..];
    FilterAppend(units[..k + 1], units[k + 1..], kind);
  }

  /** One more unit, behind `front` and what has been kept so far. */
  lemma {:induction false} FilterStep(front: seq<NALU>, units: seq<NALU>, k: nat, kind: NALU -> bool)
    requires k < |units|
    ensures var before, after := front + Filter(units[..k], kind), front + Filter(units[..k + 1], kind);
            && |after| <= |front| + |Filter(units, kind)|
            && after == if kind(units[k]) then before + [units[k]] else before
  {
    FilterPrefix(units, k, kind);
    Snoc(units[..k], units[k], kind);
    Regroup(front, Filter(units[..k], kind), [units[k]]);
  }

  // aggregation packets

  datatype Parsed = Truncated | Units(units: seq<NALU>)

  function Size(payload: seq<Byte>): nat
    requires |payload| >= 2
  {
    payload[0] as nat * 256 + payload[1] as nat
  }

  /** The units of an aggregation packet: each is preceded by its size. A size of zero ends the list; a size
      that exceeds what is left makes the packet invalid. */
  function Aggregated(payload: seq<Byte>): Parsed
    decreases |payload|
  {
    if |payload| < 2 || Size(payload) == 0 then Units([])
    else if Size(payload) > |payload| - 2 then Truncated
    else
      match Aggregated(payload[2 + Size(payload)..])
      case Truncated => Truncated
      case Units(rest) => Units([payload[2..2 + Size(payload)]] + rest)
  }

  /** What a sender puts into an aggregation packet. */
  function Aggregate(units: seq<NALU>): seq<Byte>
    requires forall u :: u in units ==> |u| < 65536
  {
    if units == [] then []
    else
      var n := |units[0]|;
      [(n / 256) as Byte, (n % 256) as Byte] + units[0] + Aggregate(units[1..])
  }

  /** The receiver finds exactly the units that were put in. */
  lemma {:induction false} AggregationRoundTrip(units: seq<NALU>)
    requires forall u :: u in units ==> |u| < 65536
    ensures Aggregated(Aggregate(units)) == Units(units)
    decreases |units|
  {
    if units != [] {
      var payload, n := Aggregate(units), |units[0]|;
      AggregationRoundTrip(units[1..]);
      assert Size(payload) == n;
      assert payload[2..2 + n] == units[0];
      assert payload[2 + n..] == Aggregate(units[1..]);
      assert units == [units[0]] + units[1..];
    }
  }

  /** The last unit of a kind, looking at the later units first. */
  lemma {:induction false} LastOfAppend(a: seq<NALU>, b: seq<NALU>, kind: NALU -> bool)
    ensures LastOf(a + b, kind) == Or(LastOf(b, kind), LastOf(a, kind))
    decreases |b|
  {
    if b == [] {
      assert a + b == a;
    } else {
      var n := |b| - 1;
      LastOfAppend(a, b[..n], kind);
      assert (a + b)[..|a + b| - 1] == a + b[..n];
    }
  }

  function Or(a: Option<NALU>, b: Option<NALU>): Option<NALU> {
    if a.Some? then a else b
  }
}
