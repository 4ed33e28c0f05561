/** Parameter sets and access units of H265: as for H264, but with three parameter sets, and with an update
    that compares every unit with the parameters that were stored before. */
module H265 {
  import opened Options
  import opened Nalus

  const IDR_W_RADL: nat := 19
  const IDR_N_LP: nat := 20
  const CRA: nat := 21
  const VPS: nat := 32
  const SPS: nat := 33
  const PPS: nat := 34
  const ACCESS_UNIT_DELIMITER: nat := 35
  const AGGREGATION_UNIT: nat := 48

  function Type(u: NALU): nat {
    (u[0] as nat / 2) % 64
  }

  predicate IsVPS(u: NALU) { Type(u) == VPS }
  predicate IsSPS(u: NALU) { Type(u) == SPS }
  predicate IsPPS(u: NALU) { Type(u) == PPS }
  predicate IsKey(u: NALU) { Type(u) == IDR_W_RADL || Type(u) == IDR_N_LP || Type(u) == CRA }

  predicate IsKept(u: NALU) {
    Type(u) != VPS && Type(u) != SPS && Type(u) != PPS && Type(u) != ACCESS_UNIT_DELIMITER
  }

  /** The unit types of section 7.4.2.2 of ITU-T H.265, in the six bits after the first one. */
  lemma {:induction false} UnitTypes(u: NALU)
    ensures IsVPS(u) <==> u[0] as nat / 2 % 64 == 32
    ensures IsSPS(u) <==> u[0] as nat / 2 % 64 == 33
    ensures IsPPS(u) <==> u[0] as nat / 2 % 64 == 34
    ensures IsKey(u) <==> 19 <= u[0] as nat / 2 % 64 <= 21
    ensures IsKept(u) <==> u[0] as nat / 2 % 64 !in {32, 33, 34, 35}
  {
  }

  datatype Params = Params(vps: Option<NALU>, sps: Option<NALU>, pps: Option<NALU>)

  const NO_PARAMS: Params := Params(None, None, None)

  // RTP packets

  /** The last parameters among some units, or the previous ones. */
  function Latest(p: Params, units: seq<NALU>): Params {
    Params(Or(LastOf(units, IsVPS), p.vps), Or(LastOf(units, IsSPS), p.sps), Or(LastOf(units, IsPPS), p.pps))
  }

  function Extract(payload: seq<Byte>): Params {
    if |payload| < 2 then NO_PARAMS
    else if Type(payload) == VPS then Params(Some(payload), None, None)
    else if Type(payload) == SPS then Params(None, Some(payload), None)
    else if Type(payload) == PPS then Params(None, None, Some(payload))
    else if Type(payload) == AGGREGATION_UNIT then
      match Aggregated(payload[2..])
      case Truncated => NO_PARAMS
      case Units(units) => Latest(NO_PARAMS, units)
    else NO_PARAMS
  }

  function Took(p: Params, u: NALU): Params {
    if IsVPS(u) then p.(vps := Some(u))
    else if IsSPS(u) then p.(sps := Some(u))
    else if IsPPS(u) then p.(pps := Some(u))
    else p
  }

  function Scan(payload: seq<Byte>, p: Params): Option<Params>
    decreases |payload|
  {
    if |payload| < 2 || Size(payload) == 0 then Some(p)
    else if Size(payload) > |payload| - 2 then None
    else Scan(payload[2 + Size(payload)..], Took(p, payload[2..2 + Size(payload)]))
  }

  lemma {:induction false} ScanFindsLast(payload: seq<Byte>, p: Params)
    ensures Scan(payload, p) ==
            match Aggregated(payload)
            case Truncated => None
            case Units(units) => Some(Latest(p, units))
    decreases |payload|
  {
    if |payload| >= 2 && 0 < Size(payload) <= |payload| - 2 {
      var u: NALU := payload[2..2 + Size(payload)];
      var rest := payload[2 + Size(payload)..];
      ScanFindsLast(rest, Took(p, u));
      if Aggregated(rest).Units? {
        LatestFront(p, u, Aggregated(rest).units);
      }
    }
  }

  lemma {:induction false} LatestFront(p: Params, u: NALU, rest: seq<NALU>)
    ensures Latest(p, [u] + rest) == Latest(Took(p, u), rest)
  {
    LastOfAppend([u], rest, IsVPS);
    LastOfAppend([u], rest, IsSPS);
    LastOfAppend([u], rest, IsPPS);
    assert [u][..0] == [];
  }

  method ExtractParams(packet: seq<Byte>) returns (p: Params)
    ensures p == Extract(packet)
  {
    if |packet| < 2 {
      return NO_PARAMS;
    }
    var typ := Type(packet);
    if typ == VPS {
      return Params(Some(packet), None, None);
    }
    if typ == SPS {
      return Params(None, Some(packet), None);
    }
    if typ == PPS {
      return Params(None, None, Some(packet));
    }
    if typ != AGGREGATION_UNIT {
      return NO_PARAMS;
    }
    p := ExtractAggregated(packet[2..]);
    ScanFindsLast(packet[2..], NO_PARAMS);
  }

  method ExtractAggregated(packet: seq<Byte>) returns (p: Params)
    ensures var r := Scan(packet, NO_PARAMS);
            p == if r.Some? then r.value else NO_PARAMS
  {
    var payload := packet;
    p := NO_PARAMS;
    while |payload| > 0
      invariant Scan(packet, NO_PARAMS) == Scan(payload, p)
      decreases |payload|
    {
      if |payload| < 2 {
        break;
      }
      var size := Size(payload);
      if size == 0 {
        break;
      }
      if size > |payload| - 2 {
        return NO_PARAMS;
      }
      var nalu: NALU := payload[2..2 + size];
      payload := payload[2 + size..];
      var typ := Type(nalu);
      if typ == VPS {
        p := p.(vps := Some(nalu));
      } else if typ == SPS {
        p := p.(sps := Some(nalu));
      } else if typ == PPS {
        p := p.(pps := Some(nalu));
      }
    }
  }

  /** An aggregation packet yields the last parameters that were put into it. */
  lemma {:induction false} ExtractFromAggregate(header: seq<Byte>, units: seq<NALU>)
    requires |header| == 2 && header[0] as nat / 2 % 64 == 48 && forall u :: u in units ==> |u| < 65536
    ensures Extract(header + Aggregate(units)) == Latest(NO_PARAMS, units)
  {
    AggregationRoundTrip(units);
    assert (header + Aggregate(units))[2..] == Aggregate(units);
  }

  // access units

  /** Parameters of a kind that are not the stored ones. */
  function Differing(kind: NALU -> bool, stored: Option<NALU>): NALU -> bool {
    (u: NALU) => kind(u) && Some(u) != stored
  }

  /** The parameters after an access unit: of each kind the last one that differs from the stored one. */
  function Updated(p: Params, au: seq<NALU>): Params {
    Params(Or(LastOf(au, Differing(IsVPS, p.vps)), p.vps),
           Or(LastOf(au, Differing(IsSPS, p.sps)), p.sps),
           Or(LastOf(au, Differing(IsPPS, p.pps)), p.pps))
  }

  /** For one kind of parameters the result is the last one of the unit if and only if that is not the
      stored one, or none of the unit differs from the stored one. */
  lemma {:induction false} UpdateIsLatestIff(au: seq<NALU>, kind: NALU -> bool, stored: Option<NALU>)
    ensures Or(LastOf(au, Differing(kind, stored)), stored) == Or(LastOf(au, kind), stored) <==>
            LastOf(au, kind) != stored || LastOf(au, Differing(kind, stored)).None?
    decreases |au|
  {
    LastOfIsLast(au, kind);
    LastOfIsLast(au, Differing(kind, stored));
  }

  /** A unit that changes a parameter set and changes it back leaves the wrong one behind. */
  lemma {:induction false} ChangedBackExample(p: Params, a: NALU, b: NALU)
    requires IsVPS(a) && IsVPS(b) && a != b && p.vps == Some(b)
    ensures LastOf([a, b], IsVPS) == Some(b) && Updated(p, [a, b]).vps == Some(a)
  {
    assert [a, b] == ([] + [a]) + [b];
    Snoc([], a, Differing(IsVPS, p.vps));
    Snoc([] + [a], b, Differing(IsVPS, p.vps));
    Snoc([] + [a], b, IsVPS);
  }

  predicate NeedsParams(p: Params, au: seq<NALU>) {
    LastOf(au, IsKey).Some? && p.vps.Some? && p.sps.Some? && p.pps.Some?
  }

  function Remuxed(p: Params, au: seq<NALU>): seq<NALU> {
    (if NeedsParams(p, au) then [p.vps.value, p.sps.value, p.pps.value] else []) + Filter(au, IsKept)
  }

  lemma {:induction false} UpdatedSnoc(p: Params, au: seq<NALU>, u: NALU)
    ensures Updated(p, au + [u]) ==
            if IsVPS(u) && Some(u) != p.vps then Updated(p, au).(vps := Some(u))
            else if IsSPS(u) && Some(u) != p.sps then Updated(p, au).(sps := Some(u))
            else if IsPPS(u) && Some(u) != p.pps then Updated(p, au).(pps := Some(u))
            else Updated(p, au)
  {
    assert Differing(IsVPS, p.vps)(u) == (IsVPS(u) && Some(u) != p.vps);
    assert Differing(IsSPS, p.sps)(u) == (IsSPS(u) && Some(u) != p.sps);
    assert Differing(IsPPS, p.pps)(u) == (IsPPS(u) && Some(u) != p.pps);
    Snoc(au, u, Differing(IsVPS, p.vps));
    Snoc(au, u, Differing(IsSPS, p.sps));
    Snoc(au, u, Differing(IsPPS, p.pps));
  }

  lemma {:induction false} CountSnoc(p: Params, au: seq<NALU>, u: NALU)
    ensures LastOf(au + [u], IsKey).Some? <==> IsKey(u) || LastOf(au, IsKey).Some?
    ensures |Remuxed(p, au + [u])| ==
            |Remuxed(p, au)| + (if IsKept(u) then 1 else 0) +
            (if IsKey(u) && LastOf(au, IsKey).None? && p.vps.Some? && p.sps.Some? && p.pps.Some? then 3 else 0)
  {
    Snoc(au, u, IsKey);
    Snoc(au, u, IsKept);
  }

  method Fill(filtered: array<NALU>, start: nat, au: seq<NALU>)
    requires filtered.Length == start + |Filter(au, IsKept)|
    modifies filtered
    ensures filtered[..] == old(filtered[..start]) + Filter(au, IsKept)
  {
    ghost var front := filtered[..start];
    var i := start;
    for k := 0 to |au|
      invariant i <= filtered.Length && filtered[..i] == front + Filter(au[..k], IsKept)
    {
      FilterStep(front, au, k, IsKept);
      var typ := Type(au[k]);
      if typ == VPS || typ == SPS || typ == PPS || typ == ACCESS_UNIT_DELIMITER {
        continue;
      }
      filtered[i] := au[k];
      i := i + 1;
      assert filtered[..i] == filtered[..i - 1] + [au[k]];
    }
    assert au[..|au|] == au;
  }

  class Processor {
    var vps: Option<NALU>
    var sps: Option<NALU>
    var pps: Option<NALU>

    ghost function View(): Params
      reads this
    {
      Params(vps, sps, pps)
    }

    constructor (p: Params)
      ensures View() == p
    {
      vps, sps, pps := p.vps, p.sps, p.pps;
    }

    method UpdateFromRTPPacket(payload: seq<Byte>)
      modifies this
      ensures var e := Extract(payload);
              View() == Params(Or(e.vps, old(vps)), Or(e.sps, old(sps)), Or(e.pps, old(pps)))
    {
      var e := ExtractParams(payload);
      if (e.vps.Some? && e.vps != vps) || (e.sps.Some? && e.sps != sps) || (e.pps.Some? && e.pps != pps) {
        if e.vps.None? {
          e := e.(vps := vps);
        }
        if e.sps.None? {
          e := e.(sps := sps);
        }
        if e.pps.None? {
          e := e.(pps := pps);
        }
        vps, sps, pps := e.vps, e.sps, e.pps;
      }
    }

    method UpdateFromAU(au: seq<NALU>)
      modifies this
      ensures View() == Updated(old(View()), au)
    {
      var p, update := Params(vps, sps, pps), false;
      for n := 0 to |au|
        invariant View() == old(View())
        invariant p == Updated(View(), au[..n])
        invariant !update ==> p == View()
      {
        assert au[..n + 1] == au[..n] + [au[n]];
        UpdatedSnoc(View(), au[..n], au[n]);
        var typ := Type(au[n]);
        if typ == VPS {
          if Some(au[n]) != vps {
            p, update := p.(vps := Some(au[n])), true;
          }
        } else if typ == SPS {
          if Some(au[n]) != sps {
            p, update := p.(sps := Some(au[n])), true;
          }
        } else if typ == PPS {
          if Some(au[n]) != pps {
            p, update := p.(pps := Some(au[n])), true;
          }
        }
      }
      assert au[..|au|] == au;
      if update {
        vps, sps, pps := p.vps, p.sps, p.pps;
      }
    }

    method RemuxAccessUnit(au: seq<NALU>) returns (r: Option<array<NALU>>)
      ensures r.None? <==> Remuxed(View(), au) == []
      ensures r.Some? ==> fresh(r.value) && r.value[..] == Remuxed(View(), au)
    {
      var isKeyFrame, n := Count(au);
      if n == 0 {
        return None;
      }
      var filtered := new NALU[n];
      var i := 0;
      if isKeyFrame && vps.Some? && sps.Some? && pps.Some? {
        filtered[0] := vps.value;
        filtered[1] := sps.value;
        filtered[2] := pps.value;
        i := 3;
        assert filtered[..i] == [vps.value, sps.value, pps.value];
      }
      Fill(filtered, i, au);
      return Some(filtered);
    }

    method Count(au: seq<NALU>) returns (isKeyFrame: bool, n: nat)
      ensures isKeyFrame <==> LastOf(au, IsKey).Some?
      ensures n == |Remuxed(View(), au)|
    {
      isKeyFrame, n := false, 0;
      for k := 0 to |au|
        invariant isKeyFrame <==> LastOf(au[..k], IsKey).Some?
        invariant n == |Remuxed(View(), au[..k])|
      {
        assert au[..k + 1] == au[..k] + [au[k]];
        CountSnoc(View(), au[..k], au[k]);
        var typ := Type(au[k]);
        if typ == VPS || typ == SPS || typ == PPS || typ == ACCESS_UNIT_DELIMITER {
          continue;
        }
        if (typ == IDR_W_RADL || typ == IDR_N_LP || typ == CRA) && !isKeyFrame {
          isKeyFrame := true;
          if vps.Some? && sps.Some? && pps.Some? {
            n := n + 3;
          }
        }
        n := n + 1;
      }
      assert au[..|au|] == au;
    }

    method ProcessUnit(au: seq<NALU>) returns (r: Option<array<NALU>>)
      modifies this
      ensures View() == Updated(old(View()), au)
      ensures r.None? <==> Remuxed(View(), au) == []
      ensures r.Some? ==> fresh(r.value) && r.value[..] == Remuxed(View(), au)
    {
      UpdateFromAU(au);
      r := RemuxAccessUnit(au);
    }
  }

  predicate AreTyped(p: Params)
    requires p.vps.Some? && p.sps.Some? && p.pps.Some?
  {
    !IsKept(p.vps.value) && !IsKept(p.sps.value) && !IsKept(p.pps.value)
  }

  lemma {:induction false} KeepsKey(au: seq<NALU>)
    ensures LastOf(Filter(au, IsKept), IsKey) == LastOf(au, IsKey)
    decreases |au|
  {
    if au != [] {
      var rest, u := au[..|au| - 1], au[|au| - 1];
      KeepsKey(rest);
      assert au == rest + [u];
      Snoc(rest, u, IsKept);
      Snoc(Filter(rest, IsKept), u, IsKey);
    }
  }

  lemma {:induction false} ThreeUnits(a: NALU, b: NALU, c: NALU)
    ensures Filter([a, b, c], IsKept) == [] <==> !IsKept(a) && !IsKept(b) && !IsKept(c)
  {
    assert [a, b, c] == (([] + [a]) + [b]) + [c];
    Snoc([], a, IsKept);
    Snoc([] + [a], b, IsKept);
    Snoc(([] + [a]) + [b], c, IsKept);
  }

  lemma {:induction false} RemuxedTwice(p: Params, au: seq<NALU>)
    requires NeedsParams(p, au)
    ensures var front := [p.vps.value, p.sps.value, p.pps.value];
            Remuxed(p, Remuxed(p, au)) == front + (Filter(front, IsKept) + Filter(au, IsKept))
  {
    var front, kept := [p.vps.value, p.sps.value, p.pps.value], Filter(au, IsKept);
    FilterHolds(au, IsKept);
    FilterAll(kept, IsKept);
    FilterAppend(front, kept, IsKept);
    KeepsKey(au);
    LastOfAppend(front, kept, IsKey);
  }

  /** Remuxing twice is the same as remuxing once if and only if the parameters that it adds are of types
      that it removes. */
  lemma {:induction false} RemuxIsIdempotentIff(p: Params, au: seq<NALU>)
    ensures Remuxed(p, Remuxed(p, au)) == Remuxed(p, au) <==> (NeedsParams(p, au) ==> AreTyped(p))
  {
    var kept := Filter(au, IsKept);
    if NeedsParams(p, au) {
      var front := [p.vps.value, p.sps.value, p.pps.value];
      RemuxedTwice(p, au);
      ThreeUnits(p.vps.value, p.sps.value, p.pps.value);
      assert |Remuxed(p, Remuxed(p, au))| == 3 + |Filter(front, IsKept)| + |kept|;
      if AreTyped(p) {
        assert [] + kept == kept;
      }
    } else {
      FilterHolds(au, IsKept);
      FilterAll(kept, IsKept);
      KeepsKey(au);
      assert [] + kept == kept;
    }
  }

  /** For one kind of parameters, the update does not miss the last ones of the unit. */
  predicate IsFollowed(au: seq<NALU>, kind: NALU -> bool, stored: Option<NALU>) {
    LastOf(au, kind) != stored || LastOf(au, Differing(kind, stored)).None?
  }

  lemma {:induction false} UpdateKnowsTheSame(au: seq<NALU>, kind: NALU -> bool, stored: Option<NALU>)
    ensures Or(LastOf(au, Differing(kind, stored)), stored).Some? <==> Or(LastOf(au, kind), stored).Some?
  {
    LastOfIsLast(au, kind);
    LastOfIsLast(au, Differing(kind, stored));
  }

  /** A key unit starts with its own last VPS, SPS and PPS, or those known before where it has none, if and
      only if the update misses none of the three. */
  lemma {:induction false} UnitBringsItsParamsIff(p: Params, au: seq<NALU>)
    ensures Remuxed(Updated(p, au), au) == Remuxed(Latest(p, au), au) <==>
            (NeedsParams(Latest(p, au), au) ==>
               IsFollowed(au, IsVPS, p.vps) && IsFollowed(au, IsSPS, p.sps) && IsFollowed(au, IsPPS, p.pps))
  {
    var q, r := Updated(p, au), Latest(p, au);
    UpdateIsLatestIff(au, IsVPS, p.vps);
    UpdateIsLatestIff(au, IsSPS, p.sps);
    UpdateIsLatestIff(au, IsPPS, p.pps);
    UpdateKnowsTheSame(au, IsVPS, p.vps);
    UpdateKnowsTheSame(au, IsSPS, p.sps);
    UpdateKnowsTheSame(au, IsPPS, p.pps);
    if NeedsParams(r, au) {
      var x, y := Remuxed(q, au), Remuxed(r, au);
      assert x[0] == q.vps.value && x[1] == q.sps.value && x[2] == q.pps.value;
      assert y[0] == r.vps.value && y[1] == r.sps.value && y[2] == r.pps.value;
    }
  }

  predicate AreKnown(p: Params) {
    p.vps.Some? && p.sps.Some? && p.pps.Some?
  }

  lemma {:induction false} HasKind(au: seq<NALU>, k: nat, kind: NALU -> bool)
    requires k < |au| && kind(au[k])
    ensures LastOf(au, kind).Some?
  {
    LastOfIsLast(au, kind);
  }

  /** Every unit with a key picture starts with the known parameters, so that a decoder can begin with it; no other unit
      gets any, nor does one that cannot get all three. */
  lemma {:induction false} KeyUnitsGetParams(p: Params, au: seq<NALU>)
    ensures (exists k :: 0 <= k < |au| && IsKey(au[k])) && AreKnown(p) ==>
              Remuxed(p, au) == [p.vps.value, p.sps.value, p.pps.value] + Filter(au, IsKept)
    ensures (forall k :: 0 <= k < |au| ==> !IsKey(au[k])) || !AreKnown(p) ==> Remuxed(p, au) == Filter(au, IsKept)
  {
    if k :| 0 <= k < |au| && IsKey(au[k]) {
      HasKind(au, k, IsKey);
    } else {
      LastOfIsLast(au, IsKey);
    }
  }
}
