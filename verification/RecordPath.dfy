/** The paths of recorded segments: encoding, decoding and the directory that all of them share. */
module RecordPath {
  import opened Options
  import opened Sequences
  import opened RecordNames

  // string operations

  function ReplaceAll(s: string, before: string, after: string): string
    requires before != ""
  {
    if s == "" then ""
    else if before <= s then after + ReplaceAll(s[|before|..], before, after)
    else [s[0]] + ReplaceAll(s[1..], before, after)
  }

  /** Replacing something that begins with % does not touch a part without %. */
  lemma {:induction false} ReplaceBehind(fixed: string, rest: string, before: string, after: string)
    requires before != "" && before[0] == '%' && '%' !in fixed
    ensures ReplaceAll(fixed + rest, before, after) == fixed + ReplaceAll(rest, before, after)
    decreases |fixed|
  {
    if fixed == "" {
      assert fixed + rest == rest;
    } else {
      var s := fixed + rest;
      assert s[0] == fixed[0] && s[1..] == fixed[1..] + rest;
      assert s[0] != before[0];
      ReplaceBehind(fixed[1..], rest, before, after);
      assert [s[0]] + (fixed[1..] + ReplaceAll(rest, before, after)) == fixed + ReplaceAll(rest, before, after);
    }
  }

  // encoding

  datatype Tag = PathTag | Year | Month | Day | Hour | Minute | Second | Micros | Zone | Unix

  function TagText(t: Tag): (s: string)
    ensures |s| >= 2 && s[0] == '%' && '%' !in s[1..]
  {
    match t
    case PathTag => "%path"
    case Year => "%Y"
    case Month => "%m"
    case Day => "%d"
    case Hour => "%H"
    case Minute => "%M"
    case Second => "%S"
    case Micros => "%f"
    case Zone => "%z"
    case Unix => "%s"
  }

  /** What a path says: the name and the start of a recording, by calendar fields and as Unix time. */
  datatype Stamp = Stamp(
    path: string, year: nat, month: nat, day: nat, hour: nat, minute: nat, second: nat, micros: nat, zone: int,
    unix: nat)

  function Value(p: Stamp, t: Tag): string {
    match t
    case PathTag => p.path
    case Year => FormatInt(p.year)
    case Month => LeadingZeros(p.month, 2)
    case Day => LeadingZeros(p.day, 2)
    case Hour => LeadingZeros(p.hour, 2)
    case Minute => LeadingZeros(p.minute, 2)
    case Second => LeadingZeros(p.second, 2)
    case Micros => LeadingZeros(p.micros, 6)
    case Zone => EncodeZone(p.zone)
    case Unix => FormatInt(p.unix)
  }

  /** The order in which tags are replaced. */
  const TAGS: seq<Tag> := [PathTag, Year, Month, Day, Hour, Minute, Second, Micros, Zone, Unix]

  function EncodeTags(p: Stamp, format: string, tags: seq<Tag>): string
    decreases |tags|
  {
    if tags == [] then format
    else EncodeTags(p, ReplaceAll(format, TagText(tags[0]), Value(p, tags[0])), tags[1..])
  }

  function Encode(p: Stamp, format: string): string {
    EncodeTags(p, format, TAGS)
  }

  // the common directory

  predicate IsSeparator(c: char) {
    c == '\\' || c == '/'
  }

  /** The index of the first separator. */
  function IndexSeparator(s: string): (r: Option<nat>)
    ensures r.Some? ==> r.value < |s| && IsSeparator(s[r.value]) && forall k :: 0 <= k < r.value ==> !IsSeparator(s[k])
    ensures r.None? ==> forall k :: 0 <= k < |s| ==> !IsSeparator(s[k])
  {
    if s == "" then None
    else if IsSeparator(s[0]) then Some(0)
    else
      var r := IndexSeparator(s[1..]);
      if r.None? then None else Some(r.value + 1)
  }

  /** The leading directories without %, with their separators. */
  function CommonDirectories(v: string): string {
    var i := IndexSeparator(v);
    if i.None? || '%' in v[..i.value + 1] then ""
    else v[..i.value + 1] + CommonDirectories(v[i.value + 1..])
  }

  lemma {:induction false} CommonIsFixed(v: string)
    ensures var r := CommonDirectories(v);
            r <= v && '%' !in r && (r != "" ==> IsSeparator(r[|r| - 1]))
    decreases |v|
  {
    var i := IndexSeparator(v);
    if i.Some? && '%' !in v[..i.value + 1] {
      var part, rest := v[..i.value + 1], v[i.value + 1..];
      CommonIsFixed(rest);
      var r := CommonDirectories(rest);
      assert v == part + rest;
      assert CommonDirectories(v) == part + r;
      PrefixBehind(part, r, rest);
      assert part + r != "" && (part + r)[|part + r| - 1] == if r == "" then part[i.value] else r[|r| - 1];
    }
  }

  lemma {:induction false} PrefixBehind(a: string, b: string, c: string)
    requires b <= c
    ensures a + b <= a + c
  {
  }

  function CommonPath(v: string): string {
    var common := CommonDirectories(v);
    if common == "" then "" else common[..|common| - 1]
  }

  method FindCommonPath(v: string) returns (common: string)
    ensures common == CommonPath(v)
  {
    common := "";
    var remaining := v;
    while true
      invariant CommonDirectories(v) == common + CommonDirectories(remaining)
      decreases |remaining|
    {
      var i := IndexSeparator(remaining);
      if i.None? {
        break;
      }
      var part, rest := remaining[..i.value + 1], remaining[i.value + 1..];
      if '%' in part {
        break;
      }
      Regroup(common, part, CommonDirectories(rest));
      common, remaining := common + part, rest;
    }
    assert common + "" == common;
    if |common| > 0 {
      common := common[..|common| - 1];
    }
  }

  /** The first directory, up to a slash or backslash, contains a tag, if there is one. */
  predicate NextHasTag(rest: string) {
    forall i :: 0 <= i < |rest| && rest[i] in {'/', '\\'} ==> '%' in rest[..i + 1]
  }

  lemma {:induction false} FirstHasTag(rest: string, first: nat)
    requires IndexSeparator(rest) == Some(first) && '%' in rest[..first + 1]
    ensures NextHasTag(rest)
  {
    forall i | 0 <= i < |rest| && rest[i] in {'/', '\\'} ensures '%' in rest[..i + 1] {
      assert first <= i;
      assert rest[..first + 1] == rest[..i + 1][..first + 1];
    }
  }

  /** The common directories are as long as they can be: the next one, if any, contains a tag. */
  lemma {:induction false} CommonIsLongest(v: string, remaining: string)
    requires v == CommonDirectories(v) + remaining
    ensures NextHasTag(remaining)
    decreases |v|
  {
    var i := IndexSeparator(v);
    if i.Some? && '%' !in v[..i.value + 1] {
      var part, rest := v[..i.value + 1], v[i.value + 1..];
      RestRemains(v, part, CommonDirectories(rest), remaining);
      CommonIsLongest(rest, remaining);
    } else {
      assert "" + remaining == remaining;
      if i.Some? {
        FirstHasTag(v, i.value);
      }
    }
  }

  lemma {:induction false} RestRemains(v: string, part: string, common: string, remaining: string)
    requires v == (part + common) + remaining
    ensures v[|part|..] == common + remaining
  {
  }

  lemma {:induction false} EncodeKeepsFront(p: Stamp, fixed: string, rest: string, tags: seq<Tag>)
    requires '%' !in fixed
    ensures EncodeTags(p, fixed + rest, tags) == fixed + EncodeTags(p, rest, tags)
    decreases |tags|
  {
    if tags != [] {
      ReplaceBehind(fixed, rest, TagText(tags[0]), Value(p, tags[0]));
      EncodeKeepsFront(p, fixed, ReplaceAll(rest, TagText(tags[0]), Value(p, tags[0])), tags[1..]);
    }
  }

  /** Whatever the format and the recording, the encoded path is below the common directory, so that a walk
      of that directory cannot miss it. */
  lemma {:induction false} EncodedPathsAreBelowCommonPath(p: Stamp, format: string)
    ensures CommonDirectories(format) <= Encode(p, format)
    ensures CommonPath(format) <= Encode(p, format)
    ensures CommonPath(format) != "" ==>
              |Encode(p, format)| > |CommonPath(format)| && IsSeparator(Encode(p, format)[|CommonPath(format)|])
  {
    var common := CommonDirectories(format);
    CommonIsFixed(format);
    assert format == common + format[|common|..];
    EncodeKeepsFront(p, common, format[|common|..], TAGS);
  }
}
