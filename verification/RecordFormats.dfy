/** What the path formats of the documentation look like when they are filled in. */
module RecordFormats {
  import opened Options
  import opened Sequences
  import opened RecordNames
  import opened RecordPath
  import opened RecordEncode
  import opened Config

  function Concat(parts: seq<string>): string {
    if parts == [] then "" else parts[0] + Concat(parts[1..])
  }

  /** A part of a format is a tag, and the other part its value, or it contains no percent sign and stays. */
  predicate Becomes(p: Stamp, before: string, after: string) {
    || (exists t: Tag :: before == TagText(t) && after == Value(p, t))
    || ('%' !in before && after == before)
  }

  lemma {:induction false} TagBecomes(p: Stamp, t: Tag, rest: string)
    ensures Text(Tokens(TagText(t) + rest), AllTags(), p) == Value(p, t) + Text(Tokens(rest), AllTags(), p)
    ensures Literal('%') !in Tokens(rest) ==> Literal('%') !in Tokens(TagText(t) + rest)
  {
    TagFirst(t, rest, p);
    var all := TagText(t) + rest;
    assert all[|TagText(t)|..] == rest;
    FirstToken(all);
    assert Tokens(all) == [Group(t)] + Tokens(rest);
    assert t in AllTags();
    assert Tokens(all)[1..] == Tokens(rest);
  }

  lemma {:induction false} CharStays(p: Stamp, c: char, rest: string)
    requires c != '%'
    ensures Tokens([c] + rest) == [Literal(c)] + Tokens(rest)
    ensures Text(Tokens([c] + rest), AllTags(), p) == [c] + Text(Tokens(rest), AllTags(), p)
  {
    var all := [c] + rest;
    assert all[1..] == rest;
    FirstToken(all);
    assert Tokens(all)[1..] == Tokens(rest);
  }

  lemma {:induction false} PlainStays(p: Stamp, part: string, rest: string)
    requires '%' !in part
    ensures Text(Tokens(part + rest), AllTags(), p) == part + Text(Tokens(rest), AllTags(), p)
    ensures Literal('%') !in Tokens(rest) ==> Literal('%') !in Tokens(part + rest)
    decreases |part|
  {
    if part == "" {
      assert part + rest == rest;
    } else {
      assert part == [part[0]] + part[1..];
      Regroup([part[0]], part[1..], rest);
      PlainStays(p, part[1..], rest);
      CharStays(p, part[0], part[1..] + rest);
      Regroup([part[0]], part[1..], Text(Tokens(rest), AllTags(), p));
    }
  }

  /** A format that is put together from such parts becomes what they become. */
  lemma {:induction false} PartsBecome(p: Stamp, before: seq<string>, after: seq<string>)
    requires |before| == |after| && forall k :: 0 <= k < |before| ==> Becomes(p, before[k], after[k])
    ensures Text(Tokens(Concat(before)), AllTags(), p) == Concat(after)
    ensures Literal('%') !in Tokens(Concat(before))
    decreases |before|
  {
    if before != [] {
      PartsBecome(p, before[1..], after[1..]);
      assert Becomes(p, before[0], after[0]);
      if t: Tag :| before[0] == TagText(t) && after[0] == Value(p, t) {
        TagBecomes(p, t, Concat(before[1..]));
      } else {
        PlainStays(p, before[0], Concat(before[1..]));
      }
    }
  }

  /** It does so when a path is encoded, whatever the name is, if that contains no percent sign. */
  lemma {:induction false} FormatBecomes(p: Stamp, before: seq<string>, after: seq<string>)
    requires p.path != "" && '%' !in p.path
    requires |before| == |after| && forall k :: 0 <= k < |before| ==> Becomes(p, before[k], after[k])
    ensures Encode(p, Concat(before)) == Concat(after)
  {
    PartsBecome(p, before, after);
    EncodeRendersIff(p, Concat(before));
    PlainNameMakesNoTagIff(p, Concat(before));
    forall k: nat | k < |Tokens(Concat(before))| ensures Tokens(Concat(before))[k] != Literal('%') {
      assert Tokens(Concat(before))[k] in Tokens(Concat(before));
    }
  }

  function Two(n: nat): string {
    LeadingZeros(n, 2)
  }

  /** The calendar date. */
  lemma {:induction false} DateNames(p: Stamp)
    requires p.path != "" && '%' !in p.path
    ensures Encode(p, Concat(["%path", "/", "%Y", "-", "%m", "-", "%d"])) ==
            Concat([p.path, "/", FormatInt(p.year), "-", Two(p.month), "-", Two(p.day)])
  {
    var before := ["%path", "/", "%Y", "-", "%m", "-", "%d"];
    var after := [p.path, "/", FormatInt(p.year), "-", Two(p.month), "-", Two(p.day)];
    assert before[0] == TagText(PathTag) && after[0] == Value(p, PathTag);
    assert before[2] == TagText(Year) && after[2] == Value(p, Year);
    assert before[4] == TagText(Month) && after[4] == Value(p, Month);
    assert before[6] == TagText(Day) && after[6] == Value(p, Day);
    FormatBecomes(p, before, after);
  }

  /** The time of day and its zone. */
  lemma {:induction false} TimeNames(p: Stamp)
    requires p.path != "" && '%' !in p.path
    ensures Encode(p, Concat(["%path", "/", "%H", "-", "%M", "-", "%S", "_", "%z"])) ==
            Concat([p.path, "/", Two(p.hour), "-", Two(p.minute), "-", Two(p.second), "_", EncodeZone(p.zone)])
  {
    var before := ["%path", "/", "%H", "-", "%M", "-", "%S", "_", "%z"];
    var after := [p.path, "/", Two(p.hour), "-", Two(p.minute), "-", Two(p.second), "_", EncodeZone(p.zone)];
    assert before[0] == TagText(PathTag) && after[0] == Value(p, PathTag);
    assert before[2] == TagText(Hour) && after[2] == Value(p, Hour);
    assert before[4] == TagText(Minute) && after[4] == Value(p, Minute);
    assert before[6] == TagText(Second) && after[6] == Value(p, Second);
    assert before[8] == TagText(Zone) && after[8] == Value(p, Zone);
    FormatBecomes(p, before, after);
  }

  /** Unix time and microseconds. */
  lemma {:induction false} UnixNames(p: Stamp)
    requires p.path != "" && '%' !in p.path
    ensures Encode(p, Concat(["%path", "/", "%s", ".", "%f"])) ==
            Concat([p.path, "/", FormatInt(p.unix), ".", LeadingZeros(p.micros, 6)])
  {
    var before, after := ["%path", "/", "%s", ".", "%f"],
      [p.path, "/", FormatInt(p.unix), ".", LeadingZeros(p.micros, 6)];
    assert before[0] == TagText(PathTag) && after[0] == Value(p, PathTag);
    assert before[2] == TagText(Unix) && after[2] == Value(p, Unix);
    assert before[4] == TagText(Micros) && after[4] == Value(p, Micros);
    FormatBecomes(p, before, after);
  }
}
