/** Parameter sets and access units of H264. */
module H264 {
  import opened Options
  import opened Nalus

  const IDR: nat := 5
  const SPS: nat := 7
  const PPS: nat := 8
  const ACCESS_UNIT_DELIMITER: nat := 9
  const STAP_A: nat := 24

  function Type(u: NALU): nat {
    u[0] as nat % 32
  }

  predicate IsSPS(u: NALU) { Type(u) == SPS }
  predicate IsPPS(u: NALU) { Type(u) == PPS }
  predicate IsIDR(u: NALU) { Type(u) == IDR }

  /** Units that are passed on; parameters are only repeated where a decoder needs them. */
  predicate IsKept(u: NALU) {
    Type(u) != SPS && Type(u) != PPS && Type(u) != ACCESS_UNIT_DELIMITER
  }

  /** The unit types of section 7.4.1 of ITU-T H.264, in the low five bits of the first byte. */
  lemma {:induction false} UnitTypes(u: NALU)
    ensures IsSPS(u) <==> u[0] as nat % 32 == 7
    ensures IsPPS(u) <==> u[0] as nat % 32 == 8
    ensures IsIDR(u) <==> u[0] as nat % 32 == 5
    ensures IsKept(u) <==> u[0] as nat % 32 !in {7, 8, 9}
  {
  }

  /** SPS and PPS, if known. */
  datatype Params = Params(sps: Option<NALU>, pps: Option<NALU>)

  /** The parameters that an RTP payload carries: its own, or the last ones of an aggregation packet. */
  function Extract(payload: seq<Byte>): Params {
    if payload == [] then Params(None, None)
    else if Type(payload) == SPS then Params(Some(payload), None)
    else if Type(payload) == PPS then Params(None, Some(payload))
    else if Type(payload) == STAP_A then
      match Aggregated(payload[1..])
      case Truncated => Params(None, None)
      case Units(units) => Params(LastOf(units, IsSPS), LastOf(units, IsPPS))
    else Params(None, None)
  }

  function Took(p: Params, u: NALU): Params {
    if IsSPS(u) then p.(sps := Some(u)) else if IsPPS(u) then p.(pps := Some(u)) else p
  }

  /** The parameters after the rest of an aggregation packet; None when it is invalid. */
  function Scan(payload: seq<Byte>, p: Params): Option<Params>
    decreases |payload|
  {
    if |payload| < 2 || Size(payload) == 0 then Some(p)
    else if Size(payload) > |payload| - 2 then None
    else Scan(payload[2 + Size(payload)..], Took(p, payload[2..2 + Size(payload)]))
  }

  /** Scanning from the front finds the last units. */
  lemma {:induction false} ScanFindsLast(payload: seq<Byte>, p: Params)
    ensures Scan(payload, p) ==
            match Aggregated(payload)
            case Truncated => None
            case Units(units) => Some(Updated(p, units))
    decreases |payload|
  {
    if |payload| >= 2 && 0 < Size(payload) <= |payload| - 2 {
      var u: NALU := payload[2..2 + Size(payload)];
      var rest := payload[2 + Size(payload)..];
      ScanFindsLast(rest, Took(p, u));
      if Aggregated(rest).Units? {
        UpdatedFront(p, u, Aggregated(rest).units);
      }
    }
  }

  lemma {:induction false} UpdatedFront(p: Params, u: NALU, rest: seq<NALU>)
    ensures Updated(p, [u] + rest) == Updated(Took(p, u), rest)
  {
    LastOfAppend([u], rest, IsSPS);
    LastOfAppend([u], rest, IsPPS);
    assert [u][..0] == [];
  }

  method ExtractParams(packet: seq<Byte>) returns (sps: Option<NALU>, pps: Option<NALU>)
    ensures Params(sps, pps) == Extract(packet)
  {
    sps, pps := None, None;
    if |packet| < 1 {
      return;
    }
    var typ := Type(packet);
    if typ == SPS {
      return Some(packet), None;
    }
    if typ == PPS {
      return None, Some(packet);
    }
    if typ != STAP_A {
      return;
    }
    sps, pps := ExtractAggregated(packet[1..]);
    ScanFindsLast(packet[1..], Params(None, None));
  }

  method ExtractAggregated(packet: seq<Byte>) returns (sps: Option<NALU>, pps: Option<NALU>)
    ensures var r := Scan(packet, Params(None, None));
            Params(sps, pps) == if r.Some? then r.value else Params(None, None)
  {
    var payload := packet;
    sps, pps := None, None;
    while |payload| > 0
      invariant Scan(packet, Params(None, None)) == Scan(payload, Params(sps, pps))
      decreases |payload|
    {
      if |payload| < 2 {
        break;
      }
      var size := Size(payload);
      if size == 0 {
        break;
      }
      if size > |payload| - 2 {
        return None, None;
      }
      var nalu: NALU := payload[2..2 + size];
      payload := payload[2 + size..];
      if Type(nalu) == SPS {
        sps := Some(nalu);
      } else if Type(nalu) == PPS {
        pps := Some(nalu);
      }
    }
  }

  /** An aggregation packet yields the last SPS and the last PPS that were put into it. */
  lemma {:induction false} ExtractFromAggregate(header: Byte, units: seq<NALU>)
    requires header as nat % 32 == 24 && forall u :: u in units ==> |u| < 65536
    ensures Extract([header] + Aggregate(units)) == Params(LastOf(units, IsSPS), LastOf(units, IsPPS))
  {
    AggregationRoundTrip(units);
    assert ([header] + Aggregate(units))[1..] == Aggregate(units);
  }

  /** The parameters after an access unit: the last ones of the unit, or the previous ones. */
  function Updated(p: Params, au: seq<NALU>): Params {
    Params(Or(LastOf(au, IsSPS), p.sps), Or(LastOf(au, IsPPS), p.pps))
  }

  predicate NeedsParams(p: Params, au: seq<NALU>) {
    LastOf(au, IsIDR).Some? && p.sps.Some? && p.pps.Some?
  }

  /** The parameters if they are known and a decoder needs them, then everything that is kept, in order. */
  function Remuxed(p: Params, au: seq<NALU>): seq<NALU> {
    (if NeedsParams(p, au) then [p.sps.value, p.pps.value] else []) + Filter(au, IsKept)
  }

  lemma {:induction false} CountSnoc(p: Params, au: seq<NALU>, u: NALU)
    ensures LastOf(au + [u], IsIDR).Some? <==> IsIDR(u) || LastOf(au, IsIDR).Some?
    ensures |Remuxed(p, au + [u])| ==
            |Remuxed(p, au)| + (if IsKept(u) then 1 else 0) +
            (if IsIDR(u) && LastOf(au, IsIDR).None? && p.sps.Some? && p.pps.Some? then 2 else 0)
  {
    Snoc(au, u, IsIDR);
    Snoc(au, u, IsKept);
  }

  /** Fills the slots from `start` on. */
  method Fill(filtered: array<NALU>, start: nat, au: seq<NALU>)
    requires filtered.Length == start + |Filter(au, IsKept)|
    modifies filtered
    ensures filtered[..] == old(filtered[..start]) + Filter(au, IsKept)
  {
    ghost var front := filtered[..start];
    var i := start;
    for k := 0 to |au|
      invariant i <= filtered.Length && filtered[..i] == front + Filter(au[..k], IsKept)
    {
      FilterStep(front, au, k, IsKept);
      if Type(au[k]) == SPS || Type(au[k]) == PPS || Type(au[k]) == ACCESS_UNIT_DELIMITER {
        continue;
      }
      filtered[i] := au[k];
      i := i + 1;
      assert filtered[..i] == filtered[..i - 1] + [au[k]];
    }
    assert au[..|au|] == au;
  }

  class Processor {
    var sps: Option<NALU>
    var pps: Option<NALU>

    ghost function View(): Params
      reads this
    {
      Params(sps, pps)
    }

    constructor (sps: Option<NALU>, pps: Option<NALU>)
      ensures View() == Params(sps, pps)
    {
      this.sps, this.pps := sps, pps;
    }

    method UpdateFromRTPPacket(payload: seq<Byte>)
      modifies this
      ensures View() == Params(Or(Extract(payload).sps, old(sps)), Or(Extract(payload).pps, old(pps)))
    {
      var newSPS, newPPS := ExtractParams(payload);
      if (newSPS.Some? && newSPS != sps) || (newPPS.Some? && newPPS != pps) {
        if newSPS.None? {
          newSPS := sps;
        }
        if newPPS.None? {
          newPPS := pps;
        }
        sps, pps := newSPS, newPPS;
      }
    }

    method UpdateFromAU(au: seq<NALU>)
      modifies this
      ensures View() == Updated(old(View()), au)
    {
      var newSPS, newPPS, update := sps, pps, false;
      for n := 0 to |au|
        invariant View() == old(View())
        invariant Params(newSPS, newPPS) == Updated(View(), au[..n])
        invariant !update ==> newSPS == sps && newPPS == pps
      {
        assert au[..n + 1] == au[..n] + [au[n]];
        Snoc(au[..n], au[n], IsSPS);
        Snoc(au[..n], au[n], IsPPS);
        if Type(au[n]) == SPS {
          if Some(au[n]) != newSPS {
            newSPS, update := Some(au[n]), true;
          }
        } else if Type(au[n]) == PPS {
          if Some(au[n]) != newPPS {
            newPPS, update := Some(au[n]), true;
          }
        }
      }
      assert au[..|au|] == au;
      if update {
        sps, pps := newSPS, newPPS;
      }
    }

    /** Counts first, then fills: both passes agree, so that every slot is filled exactly once. */
    method RemuxAccessUnit(au: seq<NALU>) returns (r: Option<array<NALU>>)
      ensures r.None? <==> Remuxed(View(), au) == []
      ensures r.Some? ==> fresh(r.value) && r.value[..] == Remuxed(View(), au)
    {
      var isKeyFrame, n := Count(au);
      if n == 0 {
        return None;
      }
      var filtered := new NALU[n];
      var i := 0;
      if isKeyFrame && sps.Some? && pps.Some? {
        filtered[0] := sps.value;
        filtered[1] := pps.value;
        i := 2;
        assert filtered[..i] == [sps.value, pps.value];
      }
      Fill(filtered, i, au);
      return Some(filtered);
    }

    method Count(au: seq<NALU>) returns (isKeyFrame: bool, n: nat)
      ensures isKeyFrame <==> LastOf(au, IsIDR).Some?
      ensures n == |Remuxed(View(), au)|
    {
      isKeyFrame, n := false, 0;
      for k := 0 to |au|
        invariant isKeyFrame <==> LastOf(au[..k], IsIDR).Some?
        invariant n == |Remuxed(View(), au[..k])|
      {
        assert au[..k + 1] == au[..k] + [au[k]];
        CountSnoc(View(), au[..k], au[k]);
        var typ := Type(au[k]);
        if typ == SPS || typ == PPS || typ == ACCESS_UNIT_DELIMITER {
          continue;
        }
        if typ == IDR && !isKeyFrame {
          isKeyFrame := true;
          if sps.Some? && pps.Some? {
            n := n + 2;
          }
        }
        n := n + 1;
      }
      assert au[..|au|] == au;
    }

    method ProcessUnit(au: seq<NALU>) returns (r: Option<array<NALU>>)
      modifies this
      ensures View() == Updated(old(View()), au)
      ensures r.None? <==> Remuxed(View(), au) == []
      ensures r.Some? ==> fresh(r.value) && r.value[..] == Remuxed(View(), au)
    {
      UpdateFromAU(au);
      r := RemuxAccessUnit(au);
    }
  }

  /** Parameters that remuxing recognizes, so that it does not repeat them. */
  predicate AreTyped(p: Params)
    requires p.sps.Some? && p.pps.Some?
  {
    !IsKept(p.sps.value) && !IsKept(p.pps.value)
  }

  lemma {:induction false} KeepsIDR(au: seq<NALU>)
    ensures LastOf(Filter(au, IsKept), IsIDR) == LastOf(au, IsIDR)
    decreases |au|
  {
    if au != [] {
      var rest, u := au[..|au| - 1], au[|au| - 1];
      KeepsIDR(rest);
      assert au == rest + [u];
      Snoc(rest, u, IsKept);
      Snoc(Filter(rest, IsKept), u, IsIDR);
    }
  }

  lemma {:induction false} TwoUnits(a: NALU, b: NALU)
    ensures Filter([a, b], IsKept) == [] <==> !IsKept(a) && !IsKept(b)
  {
    assert [a, b] == ([] + [a]) + [b];
    Snoc([], a, IsKept);
    Snoc([] + [a], b, IsKept);
  }

  /** What remuxing makes of its own result. */
  lemma {:induction false} RemuxedTwice(p: Params, au: seq<NALU>)
    requires NeedsParams(p, au)
    ensures var front := [p.sps.value, p.pps.value];
            Remuxed(p, Remuxed(p, au)) == front + (Filter(front, IsKept) + Filter(au, IsKept))
  {
    var front, kept := [p.sps.value, p.pps.value], Filter(au, IsKept);
    FilterHolds(au, IsKept);
    FilterAll(kept, IsKept);
    FilterAppend(front, kept, IsKept);
    KeepsIDR(au);
    LastOfAppend(front, kept, IsIDR);
  }

  /** Remuxing twice is the same as remuxing once if and only if the parameters that it adds are of types
      that it removes. */
  lemma {:induction false} RemuxIsIdempotentIff(p: Params, au: seq<NALU>)
    ensures Remuxed(p, Remuxed(p, au)) == Remuxed(p, au) <==> (NeedsParams(p, au) ==> AreTyped(p))
  {
    var kept := Filter(au, IsKept);
    if NeedsParams(p, au) {
      var front := [p.sps.value, p.pps.value];
      RemuxedTwice(p, au);
      TwoUnits(p.sps.value, p.pps.value);
      assert |Remuxed(p, Remuxed(p, au))| == 2 + |Filter(front, IsKept)| + |kept|;
      if AreTyped(p) {
        assert [] + kept == kept;
      }
    } else {
      FilterHolds(au, IsKept);
      FilterAll(kept, IsKept);
      KeepsIDR(au);
      assert [] + kept == kept;
    }
  }

  /** A unit with an IDR and parameters of its own starts with the last ones, whatever was known before,
      and remuxing it again changes nothing. */
  lemma {:induction false} UnitBringsItsParams(p: Params, au: seq<NALU>)
    requires LastOf(au, IsSPS).Some? && LastOf(au, IsPPS).Some? && LastOf(au, IsIDR).Some?
    ensures var q := Updated(p, au);
            && Remuxed(q, au) == [LastOf(au, IsSPS).value, LastOf(au, IsPPS).value] + Filter(au, IsKept)
            && Remuxed(q, Remuxed(q, au)) == Remuxed(q, au)
  {
    LastOfIsLast(au, IsSPS);
    LastOfIsLast(au, IsPPS);
    RemuxIsIdempotentIff(Updated(p, au), au);
  }

  lemma {:induction false} HasKind(au: seq<NALU>, k: nat, kind: NALU -> bool)
    requires k < |au| && kind(au[k])
    ensures LastOf(au, kind).Some?
  {
    LastOfIsLast(au, kind);
  }

  /** Every unit with an IDR starts with the known parameters, so that a decoder can begin with it; no other unit gets
      any, nor does one that cannot get both. Parameters and delimiters are not passed on from where they were. */
  lemma {:induction false} KeyUnitsGetParams(p: Params, au: seq<NALU>)
    ensures (exists k :: 0 <= k < |au| && IsIDR(au[k])) && p.sps.Some? && p.pps.Some? ==>
              Remuxed(p, au) == [p.sps.value, p.pps.value] + Filter(au, IsKept)
    ensures (forall k :: 0 <= k < |au| ==> !IsIDR(au[k])) || p.sps.None? || p.pps.None? ==>
              Remuxed(p, au) == Filter(au, IsKept)
  {
    if k :| 0 <= k < |au| && IsIDR(au[k]) {
      HasKind(au, k, IsIDR);
    } else {
      LastOfIsLast(au, IsIDR);
      assert [] + Filter(au, IsKept) == Filter(au, IsKept);
    }
  }
}
