/** Reading the start of a recording back from its path. The regular expression that the source builds
    from a format is a sequence of literal characters and groups of fixed form; it is matched here
    directly, at the leftmost place where it matches. */
module RecordDecode {
  import opened Options
  import opened RecordNames
  import opened RecordPath
  import opened RecordEncode

  // matching

  function Width(t: Tag): nat {
    match t
    case Year => 4
    case Micros => 6
    case Unix => 10
    case _ => 2
  }

  /** How much of v a group of fixed form takes. */
  function GroupLength(t: Tag, v: string): (r: Option<nat>)
    requires t != PathTag
    ensures r.Some? ==> r.value <= |v|
  {
    if t == Zone then
      if "Z" <= v then Some(1) else if |v| >= 5 && IsZone(v[..5]) then Some(5) else None
    else if |v| >= Width(t) && AllDigits(v[..Width(t)]) then Some(Width(t))
    else None
  }

  /** A match that begins at the start of v; of several groups with the same tag the last one counts. */
  function MatchAt(tokens: seq<Token>, v: string): Option<map<Tag, string>>
    decreases |tokens|, |v| + 2
  {
    if tokens == [] then Some(map[])
    else
      match tokens[0]
      case Literal(c) => if v != "" && v[0] == c then MatchAt(tokens[1..], v[1..]) else None
      case Group(t) =>
        if t == PathTag then MatchPath(tokens, v, 0)
        else
          var n := GroupLength(t, v);
          if n.None? then None else Add(MatchAt(tokens[1..], v[n.value..]), t, v[..n.value])
  }

  function Add(rest: Option<map<Tag, string>>, t: Tag, s: string): Option<map<Tag, string>> {
    if rest.None? || t in rest.value then rest else Some(rest.value[t := s])
  }

  /** The group of a name takes as little as possible, on one line: at least k characters are tried. */
  function MatchPath(tokens: seq<Token>, v: string, k: nat): Option<map<Tag, string>>
    requires tokens != [] && k <= |v|
    decreases |tokens|, |v| - k + 1
  {
    var rest := MatchAt(tokens[1..], v[k..]);
    if rest.Some? then Add(rest, PathTag, v[..k])
    else if k < |v| && v[k] != '\n' then MatchPath(tokens, v, k + 1)
    else None
  }

  /** The leftmost match. */
  function FindSubmatch(tokens: seq<Token>, v: string): Option<map<Tag, string>> {
    if MatchAt(tokens, v).Some? then MatchAt(tokens, v)
    else if v == "" then None
    else FindSubmatch(tokens, v[1..])
  }

  /** A name is what is before the first place, on the same line, from which on the rest of the format matches. */
  lemma {:induction false} NameIsShortest(tokens: seq<Token>, v: string, k: nat) returns (n: nat)
    requires tokens != [] && k <= |v| && MatchPath(tokens, v, k).Some?
    ensures k <= n <= |v| && MatchPath(tokens, v, k) == Add(MatchAt(tokens[1..], v[n..]), PathTag, v[..n])
    ensures MatchAt(tokens[1..], v[n..]).Some? && '\n' !in v[k..n]
    ensures forall j :: k <= j < n ==> MatchAt(tokens[1..], v[j..]).None?
    decreases |v| - k
  {
    n := k;
    if MatchAt(tokens[1..], v[k..]).None? {
      n := NameIsShortest(tokens, v, k + 1);
      assert v[k..n] == [v[k]] + v[k + 1..n];
    }
  }

  /** What matches is looked for from the front: before it nothing matches. */
  lemma {:induction false} SubmatchIsLeftmost(tokens: seq<Token>, v: string) returns (n: nat)
    requires FindSubmatch(tokens, v).Some?
    ensures n <= |v| && FindSubmatch(tokens, v) == MatchAt(tokens, v[n..])
    ensures forall j :: 0 <= j < n ==> MatchAt(tokens, v[j..]).None?
    decreases |v|
  {
    n := 0;
    assert v[0..] == v;
    if MatchAt(tokens, v).None? {
      var m := SubmatchIsLeftmost(tokens, v[1..]);
      n := m + 1;
      assert v[1..][m..] == v[n..];
      forall j | 0 <= j < n ensures MatchAt(tokens, v[j..]).None? {
        assert j > 0 ==> v[1..][j - 1..] == v[j..];
      }
    }
  }

  /** A path has the format if and only if something in it matches. */
  lemma {:induction false} SubmatchIff(tokens: seq<Token>, v: string)
    ensures FindSubmatch(tokens, v).Some? <==> exists j :: 0 <= j <= |v| && MatchAt(tokens, v[j..]).Some?
    decreases |v|
  {
    assert v[0..] == v;
    if MatchAt(tokens, v).None? && v != "" {
      SubmatchIff(tokens, v[1..]);
      assert forall j :: 0 < j <= |v| ==> v[1..][j - 1..] == v[j..];
      if FindSubmatch(tokens, v[1..]).Some? {
        var j :| 0 <= j <= |v[1..]| && MatchAt(tokens, v[1..][j..]).Some?;
        assert v[1..][j..] == v[j + 1..];
      } else {
        forall j | 0 <= j <= |v| ensures MatchAt(tokens, v[j..]).None? {
          assert j > 0 ==> v[1..][j - 1..] == v[j..];
        }
      }
    }
  }

  /** Numbers that have as many digits as their group, and names on one line. */
  predicate Fits(p: Stamp, t: Tag) {
    match t
    case PathTag => '\n' !in p.path
    case Year => 1000 <= p.year < 10000
    case Month => p.month < 100
    case Day => p.day < 100
    case Hour => p.hour < 100
    case Minute => p.minute < 100
    case Second => p.second < 100
    case Micros => p.micros < 1000000
    case Zone => -360000 < p.zone < 360000
    case Unix => 1000000000 <= p.unix < 10000000000
  }

  lemma {:induction false} PowersOfTen()
    ensures Pow10(2) == 100 && Pow10(3) == 1000 && Pow10(4) == 10000 && Pow10(6) == 1000000
    ensures Pow10(9) == 1000000000 && Pow10(10) == 10000000000
  {
    assert Pow10(3) == 10 * Pow10(2) && Pow10(5) == 10 * Pow10(4) && Pow10(7) == 10 * Pow10(6) &&
           Pow10(8) == 10 * Pow10(7);
  }

  lemma {:induction false} ValueIsGroup(p: Stamp, t: Tag, rest: string)
    requires Fits(p, t) && t != PathTag
    ensures GroupLength(t, Value(p, t) + rest) == Some(|Value(p, t)|)
  {
    PowersOfTen();
    var v := Value(p, t);
    if t == Zone {
      ZoneIsZone(p.zone);
      assert |v| == 5 ==> (v + rest)[..5] == v && (v + rest)[0] == v[0];
    } else {
      ValueLength(p, t);
      assert (v + rest)[..|v|] == v;
    }
  }

  lemma {:induction false} ValueLength(p: Stamp, t: Tag)
    requires Fits(p, t) && t != Zone && t != PathTag
    ensures |Value(p, t)| == Width(t) && AllDigits(Value(p, t))
  {
    PowersOfTen();
    match t
    case Year => FormatLength(p.year, 3); FormatLength(p.year, 4);
    case Unix => FormatLength(p.unix, 9); FormatLength(p.unix, 10);
    case Month => LeadingZerosParse(p.month, 2);
    case Day => LeadingZerosParse(p.day, 2);
    case Hour => LeadingZerosParse(p.hour, 2);
    case Minute => LeadingZerosParse(p.minute, 2);
    case Second => LeadingZerosParse(p.second, 2);
    case Micros => LeadingZerosParse(p.micros, 6);
  }

  predicate HasTag(tokens: seq<Token>, t: Tag) {
    Group(t) in tokens
  }

  /** A match that reads the value of every tag. */
  ghost predicate ReadsAll(m: Option<map<Tag, string>>, tokens: seq<Token>, p: Stamp) {
    && m.Some?
    && (forall t :: t in m.value <==> HasTag(tokens, t))
    && (forall t :: t in m.value ==> m.value[t] == Value(p, t))
  }

  lemma {:induction false} LiteralMatches(tokens: seq<Token>, c: char, rest: string, p: Stamp)
    requires tokens != [] && tokens[0] == Literal(c) && ReadsAll(MatchAt(tokens[1..], rest), tokens[1..], p)
    ensures ReadsAll(MatchAt(tokens, [c] + rest), tokens, p)
  {
    assert ([c] + rest)[1..] == rest;
    assert forall t :: HasTag(tokens, t) <==> HasTag(tokens[1..], t);
  }

  lemma {:induction false} GroupMatches(tokens: seq<Token>, t: Tag, rest: string, p: Stamp)
    requires tokens != [] && tokens[0] == Group(t) && Fits(p, t) && t != PathTag
    requires ReadsAll(MatchAt(tokens[1..], rest), tokens[1..], p)
    ensures ReadsAll(MatchAt(tokens, Value(p, t) + rest), tokens, p)
  {
    var v := Value(p, t);
    ValueIsGroup(p, t, rest);
    assert (v + rest)[|v|..] == rest && (v + rest)[..|v|] == v;
    assert forall u :: HasTag(tokens, u) <==> u == t || HasTag(tokens[1..], u);
  }

  /** After %path, no shorter piece of the name would do for the name. */
  predicate IsShortest(tokens: seq<Token>, p: Stamp)
    requires tokens != []
  {
    var all := p.path + Text(tokens[1..], AllTags(), p);
    forall k {:trigger all[k..]} :: 0 <= k < |p.path| ==> MatchAt(tokens[1..], all[k..]).None?
  }

  predicate IsUnambiguous(tokens: seq<Token>, p: Stamp) {
    forall j :: 0 <= j < |tokens| && tokens[j] == Group(PathTag) ==> IsShortest(tokens[j..], p)
  }

  /** The group of a name takes the first length with which the rest matches. */
  lemma {:induction false} FirstLength(tokens: seq<Token>, v: string, k: nat, n: nat)
    requires tokens != [] && k <= n <= |v| && MatchAt(tokens[1..], v[n..]).Some?
    requires forall j :: k <= j < n ==> v[j] != '\n'
    ensures MatchPath(tokens, v, k).Some?
    ensures exists m :: k <= m <= n && MatchAt(tokens[1..], v[m..]).Some?
                        && (forall j {:trigger v[j..]} :: k <= j < m ==> MatchAt(tokens[1..], v[j..]).None?)
                        && MatchPath(tokens, v, k) == Add(MatchAt(tokens[1..], v[m..]), PathTag, v[..m])
    decreases n - k
  {
    if MatchAt(tokens[1..], v[k..]).None? {
      FirstLength(tokens, v, k + 1, n);
    }
  }

  lemma {:induction false} PathMatches(tokens: seq<Token>, rest: string, p: Stamp)
    requires tokens != [] && tokens[0] == Group(PathTag) && '\n' !in p.path && rest == Text(tokens[1..], AllTags(), p)
    requires IsShortest(tokens, p) && ReadsAll(MatchAt(tokens[1..], rest), tokens[1..], p)
    ensures ReadsAll(MatchAt(tokens, p.path + rest), tokens, p)
  {
    var v, n := p.path + rest, |p.path|;
    assert v[n..] == rest && v[..n] == p.path;
    FirstLength(tokens, v, 0, n);
    assert forall u :: HasTag(tokens, u) <==> u == PathTag || HasTag(tokens[1..], u);
  }

  lemma {:induction false} OneMoreMatches(tokens: seq<Token>, rest: string, p: Stamp)
    requires tokens != [] && (tokens[0].Group? ==> Fits(p, tokens[0].tag)) &&
             (tokens[0] == Group(PathTag) ==> IsShortest(tokens, p))
    requires rest == Text(tokens[1..], AllTags(), p) && ReadsAll(MatchAt(tokens[1..], rest), tokens[1..], p)
    ensures ReadsAll(MatchAt(tokens, Piece(tokens[0], AllTags(), p) + rest), tokens, p)
  {
    match tokens[0] {
      case Literal(c) =>
        LiteralMatches(tokens, c, rest, p);
      case Group(t) =>
        assert t in AllTags();
        if t == PathTag {
          PathMatches(tokens, rest, p);
        } else {
          GroupMatches(tokens, t, rest, p);
        }
    }
  }

  lemma {:induction false} RenderedMatches(tokens: seq<Token>, p: Stamp)
    requires (forall t :: HasTag(tokens, t) ==> Fits(p, t)) && IsUnambiguous(tokens, p)
    ensures ReadsAll(MatchAt(tokens, Text(tokens, AllTags(), p)), tokens, p)
    decreases |tokens|
  {
    if tokens != [] {
      assert forall t :: HasTag(tokens[1..], t) ==> HasTag(tokens, t);
      assert tokens[0].Group? ==> HasTag(tokens, tokens[0].tag);
      assert tokens[0..] == tokens;
      UnambiguousRest(tokens, p);
      RenderedMatches(tokens[1..], p);
      OneMoreMatches(tokens, Text(tokens[1..], AllTags(), p), p);
    }
  }

  lemma {:induction false} UnambiguousRest(tokens: seq<Token>, p: Stamp)
    requires tokens != [] && IsUnambiguous(tokens, p)
    ensures IsUnambiguous(tokens[1..], p)
  {
    var rest := tokens[1..];
    forall j | 0 <= j < |rest| && rest[j] == Group(PathTag) ensures IsShortest(rest[j..], p) {
      assert tokens[j + 1] == rest[j] && rest[j..] == tokens[j + 1..];
    }
  }

  // decoding

  /** A start time by Unix time, or by calendar fields in a zone, which is the local one unless given. */
  datatype Start =
    | UnixTime(seconds: nat, micros: nat)
    | Date(year: nat, month: nat, day: nat, hour: nat, minute: nat, second: nat, micros: nat, zone: Option<int>)

  /** What decoding yields; the name stays empty when the format does not have it. */
  datatype Decoded = Decoded(path: string, start: Start)

  predicate IsGroup(t: Tag, s: string) {
    match t
    case PathTag => true
    case Zone => IsZone(s)
    case _ => AllDigits(s)
  }

  /** Groups hold what they are supposed to. */
  predicate ValidGroups(m: map<Tag, string>) {
    forall t :: t in m ==> IsGroup(t, m[t])
  }

  function Number(m: map<Tag, string>, t: Tag, absent: nat): nat
    requires ValidGroups(m) && t != Zone && t != PathTag
  {
    if t in m then ParseInt(m[t]) else absent
  }

  function DecodedOf(m: map<Tag, string>): Decoded
    requires ValidGroups(m)
  {
    FieldsOf(m).Result()
  }

  /** The variables that decoding fills in. */
  datatype Fields = Fields(
    year: nat, month: nat, day: nat, hour: nat, minute: nat, second: nat, micros: nat, unixSec: nat, zone: Option<int>,
    path: string)
  {
    function Result(): Decoded {
      Decoded(path, if unixSec > 0 then UnixTime(unixSec, micros)
              else Date(year, month, day, hour, minute, second, micros, zone))
    }

    function Read(t: Tag, s: string): Fields
      requires IsGroup(t, s)
    {
      match t
      case PathTag => this.(path := s)
      case Year => this.(year := ParseInt(s))
      case Month => this.(month := ParseInt(s))
      case Day => this.(day := ParseInt(s))
      case Hour => this.(hour := ParseInt(s))
      case Minute => this.(minute := ParseInt(s))
      case Second => this.(second := ParseInt(s))
      case Micros => this.(micros := ParseInt(s))
      case Unix => this.(unixSec := ParseInt(s))
      case Zone => this.(zone := Some(DecodeZone(s)))
    }
  }

  function FieldsOf(m: map<Tag, string>): Fields
    requires ValidGroups(m)
  {
    Fields(Number(m, Year, 0), Number(m, Month, 1), Number(m, Day, 1), Number(m, Hour, 0), Number(m, Minute, 0),
           Number(m, Second, 0), Number(m, Micros, 0), Number(m, Unix, 0), if Zone in m then Some(DecodeZone(m[Zone]))
             else None,
           if PathTag in m then m[PathTag] else "")
  }

  lemma {:induction false} OneMoreGroup(m: map<Tag, string>, t: Tag, s: string)
    requires ValidGroups(m) && IsGroup(t, s)
    ensures ValidGroups(m[t := s]) && FieldsOf(m[t := s]) == FieldsOf(m).Read(t, s)
  {
  }

  /** One group less to read. */
  lemma {:induction false} NextGroup(m: map<Tag, string>, keys: set<Tag>, t: Tag)
    requires ValidGroups(m) && t in keys && t in m
    ensures ValidGroups(m - keys) && ValidGroups(m - (keys - {t})) && IsGroup(t, m[t])
    ensures FieldsOf(m - (keys - {t})) == FieldsOf(m - keys).Read(t, m[t])
  {
    assert m - (keys - {t}) == (m - keys)[t := m[t]];
    OneMoreGroup(m - keys, t, m[t]);
  }

  /** Reads the groups of a match, in whatever order the map is iterated. */
  method ReadGroups(m: map<Tag, string>) returns (r: Decoded)
    requires ValidGroups(m)
    ensures r == DecodedOf(m)
  {
    var fields := Fields(0, 1, 1, 0, 0, 0, 0, 0, None, "");
    var keys := m.Keys;
    assert m - keys == map[];
    while keys != {}
      invariant keys <= m.Keys && ValidGroups(m - keys) && fields == FieldsOf(m - keys)
      decreases |keys|
    {
      var t :| t in keys;
      NextGroup(m, keys, t);
      fields := fields.Read(t, m[t]);
      keys := keys - {t};
    }
    assert m - keys == m;
    return fields.Result();
  }

  lemma {:induction false} MatchHasValidGroups(tokens: seq<Token>, v: string)
    requires MatchAt(tokens, v).Some?
    ensures ValidGroups(MatchAt(tokens, v).value)
    decreases |tokens|, |v| + 2
  {
    if tokens != [] {
      match tokens[0] {
        case Literal(c) => MatchHasValidGroups(tokens[1..], v[1..]);
        case Group(t) =>
          if t == PathTag {
            PathHasValidGroups(tokens, v, 0);
          } else {
            var n := GroupLength(t, v).value;
            MatchHasValidGroups(tokens[1..], v[n..]);
            GroupIsGroup(t, v);
          }
      }
    }
  }

  lemma {:induction false} GroupIsGroup(t: Tag, v: string)
    requires t != PathTag && GroupLength(t, v).Some?
    ensures IsGroup(t, v[..GroupLength(t, v).value])
  {
    if t == Zone && "Z" <= v {
      assert v[..1] == "Z";
    }
  }

  lemma {:induction false} PathHasValidGroups(tokens: seq<Token>, v: string, k: nat)
    requires tokens != [] && k <= |v| && MatchPath(tokens, v, k).Some?
    ensures ValidGroups(MatchPath(tokens, v, k).value)
    decreases |tokens|, |v| - k + 1
  {
    if MatchAt(tokens[1..], v[k..]).Some? {
      MatchHasValidGroups(tokens[1..], v[k..]);
    } else {
      PathHasValidGroups(tokens, v, k + 1);
    }
  }

  lemma {:induction false} SubmatchHasValidGroups(tokens: seq<Token>, v: string)
    requires FindSubmatch(tokens, v).Some?
    ensures ValidGroups(FindSubmatch(tokens, v).value)
    decreases |v|
  {
    if MatchAt(tokens, v).Some? {
      MatchHasValidGroups(tokens, v);
    } else {
      SubmatchHasValidGroups(tokens, v[1..]);
    }
  }

  /** Decodes a path; None when it does not have the format. */
  method Decode(format: string, v: string) returns (r: Option<Decoded>)
    ensures r.Some? <==> FindSubmatch(Tokens(format), v).Some?
    ensures r.Some? ==>
              ValidGroups(FindSubmatch(Tokens(format), v).value) &&
              r.value == DecodedOf(FindSubmatch(Tokens(format), v).value)
  {
    var m := FindSubmatch(Tokens(format), v);
    if m.None? {
      return None;
    }
    SubmatchHasValidGroups(Tokens(format), v);
    var decoded := ReadGroups(m.value);
    return Some(decoded);
  }

  /** The number that a tag stands for. */
  function Field(p: Stamp, t: Tag): nat
    requires t != PathTag && t != Zone
  {
    match t
    case Year => p.year
    case Month => p.month
    case Day => p.day
    case Hour => p.hour
    case Minute => p.minute
    case Second => p.second
    case Micros => p.micros
    case Unix => p.unix
  }

  lemma {:induction false} ValueParses(p: Stamp, t: Tag)
    requires t != PathTag && t != Zone
    ensures AllDigits(Value(p, t)) && ParseInt(Value(p, t)) == Field(p, t)
  {
    match t
    case Year => FormatParses(p.year);
    case Unix => FormatParses(p.unix);
    case Month => LeadingZerosParse(p.month, 2);
    case Day => LeadingZerosParse(p.day, 2);
    case Hour => LeadingZerosParse(p.hour, 2);
    case Minute => LeadingZerosParse(p.minute, 2);
    case Second => LeadingZerosParse(p.second, 2);
    case Micros => LeadingZerosParse(p.micros, 6);
  }

  /** What a format says about a recording. */
  function Said(tokens: seq<Token>, p: Stamp): Decoded {
    var micros := if HasTag(tokens, Micros) then p.micros else 0;
    Decoded(
      if HasTag(tokens, PathTag) then p.path else "",
      if HasTag(tokens, Unix) then UnixTime(p.unix, micros)
      else
        Date(if HasTag(tokens, Year) then p.year else 0, if HasTag(tokens, Month) then p.month else 1,
             if HasTag(tokens, Day) then p.day else 1, if HasTag(tokens, Hour) then p.hour else 0,
             if HasTag(tokens, Minute) then p.minute else 0, if HasTag(tokens, Second) then p.second else 0, micros,
             if HasTag(tokens, Zone) then Some(p.zone) else None))
  }

  lemma {:induction false} NumberIsSaid(m: map<Tag, string>, tokens: seq<Token>, p: Stamp, t: Tag, absent: nat)
    requires ValidGroups(m) && ReadsAll(Some(m), tokens, p) && t != Zone && t != PathTag
    ensures Number(m, t, absent) == if HasTag(tokens, t) then Field(p, t) else absent
  {
    ValueParses(p, t);
  }

  lemma {:induction false} NumbersAreSaid(m: map<Tag, string>, tokens: seq<Token>, p: Stamp)
    requires ValidGroups(m) && ReadsAll(Some(m), tokens, p)
    ensures Number(m, Year, 0) == (if HasTag(tokens, Year) then p.year else 0)
    ensures Number(m, Month, 1) == (if HasTag(tokens, Month) then p.month else 1)
    ensures Number(m, Day, 1) == (if HasTag(tokens, Day) then p.day else 1)
    ensures Number(m, Hour, 0) == (if HasTag(tokens, Hour) then p.hour else 0)
    ensures Number(m, Minute, 0) == (if HasTag(tokens, Minute) then p.minute else 0)
    ensures Number(m, Second, 0) == (if HasTag(tokens, Second) then p.second else 0)
    ensures Number(m, Micros, 0) == (if HasTag(tokens, Micros) then p.micros else 0)
    ensures Number(m, Unix, 0) == (if HasTag(tokens, Unix) then p.unix else 0)
  {
    NumberIsSaid(m, tokens, p, Year, 0);
    NumberIsSaid(m, tokens, p, Month, 1);
    NumberIsSaid(m, tokens, p, Day, 1);
    NumberIsSaid(m, tokens, p, Hour, 0);
    NumberIsSaid(m, tokens, p, Minute, 0);
    NumberIsSaid(m, tokens, p, Second, 0);
    NumberIsSaid(m, tokens, p, Micros, 0);
    NumberIsSaid(m, tokens, p, Unix, 0);
  }

  /** All that decoding can get wrong is the zone, and only where it matters. */
  lemma {:induction false} GroupsAreSaid(m: map<Tag, string>, tokens: seq<Token>, p: Stamp)
    requires ValidGroups(m) && ReadsAll(Some(m), tokens, p)
    requires forall t :: HasTag(tokens, t) ==> Fits(p, t)
    ensures DecodedOf(m) == Said(tokens, p) <==> HasTag(tokens, Unix) || !HasTag(tokens, Zone) || p.zone % 3600 == 0
  {
    NumbersAreSaid(m, tokens, p);
    var zone := if HasTag(tokens, Zone) then Some(DecodeZone(m[Zone])) else None;
    SaidButZone(FieldsOf(m), tokens, p, zone);
    if HasTag(tokens, Zone) {
      ZoneIsSaidIff(m, tokens, p);
    }
  }

  lemma {:induction false} ZoneIsSaidIff(m: map<Tag, string>, tokens: seq<Token>, p: Stamp)
    requires ValidGroups(m) && ReadsAll(Some(m), tokens, p) && HasTag(tokens, Zone) && Fits(p, Zone)
    ensures Zone in m && IsZone(m[Zone]) && (DecodeZone(m[Zone]) == p.zone <==> p.zone % 3600 == 0)
  {
    ZoneRoundTripIff(p.zone);
  }

  lemma {:induction false} SaidButZone(f: Fields, tokens: seq<Token>, p: Stamp, zone: Option<int>)
    requires HasTag(tokens, Unix) ==> Fits(p, Unix)
    requires f == Fields(
                    if HasTag(tokens, Year) then p.year else 0, if HasTag(tokens, Month) then p.month else 1,
                    if HasTag(tokens, Day) then p.day else 1, if HasTag(tokens, Hour) then p.hour else 0,
                    if HasTag(tokens, Minute) then p.minute else 0, if HasTag(tokens, Second) then p.second else 0,
                    if HasTag(tokens, Micros) then p.micros else 0, if HasTag(tokens, Unix) then p.unix else 0, zone,
                    if HasTag(tokens, PathTag) then p.path else "")
    ensures f.Result() == Said(tokens, p) <==>
            HasTag(tokens, Unix) || zone == (if HasTag(tokens, Zone) then Some(p.zone) else None)
  {
  }

  // names that are read too short

  /** The name is at most once in the format. */
  predicate HasOnePath(tokens: seq<Token>) {
    forall j, k :: 0 <= j < k < |tokens| && tokens[j] == Group(PathTag) ==> tokens[k] != Group(PathTag)
  }

  /** What a match reads as the name. */
  ghost predicate ReadsPath(m: Option<map<Tag, string>>, path: string) {
    m.Some? && PathTag in m.value && m.value[PathTag] == path
  }

  lemma {:induction false} FirstNotPath(tokens: seq<Token>, p: Stamp)
    requires tokens != [] && tokens[0] != Group(PathTag) && (forall t :: HasTag(tokens, t) ==> Fits(p, t))
    requires MatchAt(tokens[1..], Text(tokens[1..], AllTags(), p)).Some?
    ensures var m, n := MatchAt(tokens, Text(tokens, AllTags(), p)),
            MatchAt(tokens[1..], Text(tokens[1..], AllTags(), p));
            m.Some? && (ReadsPath(m, p.path) <==> ReadsPath(n, p.path))
  {
    var rest := Text(tokens[1..], AllTags(), p);
    match tokens[0] {
      case Literal(c) => assert ([c] + rest)[1..] == rest;
      case Group(t) =>
        assert HasTag(tokens, t) && t in AllTags();
        var v := Value(p, t);
        ValueIsGroup(p, t, rest);
        assert (v + rest)[|v|..] == rest;
    }
  }

  lemma {:induction false} NoPathInGroups(tokens: seq<Token>, v: string)
    requires MatchAt(tokens, v).Some? && !HasTag(tokens, PathTag)
    ensures PathTag !in MatchAt(tokens, v).value
    decreases |tokens|
  {
    if tokens != [] {
      assert HasTag(tokens[1..], PathTag) ==> HasTag(tokens, PathTag);
      match tokens[0] {
        case Literal(c) => NoPathInGroups(tokens[1..], v[1..]);
        case Group(t) =>
          assert HasTag(tokens, t);
          NoPathInGroups(tokens[1..], v[GroupLength(t, v).value..]);
      }
    }
  }

  lemma {:induction false} FirstLengthDecides(tokens: seq<Token>, p: Stamp, v: string, m: nat)
    requires tokens != [] && v == p.path + Text(tokens[1..], AllTags(), p) && m <= |p.path| &&
             !HasTag(tokens[1..], PathTag)
    requires MatchAt(tokens[1..], v[m..]).Some? && forall j {:trigger v[j..]} :: 0 <= j < m ==>
             MatchAt(tokens[1..], v[j..]).None?
    ensures ReadsPath(Add(MatchAt(tokens[1..], v[m..]), PathTag, v[..m]), p.path) <==> IsShortest(tokens, p)
  {
    NoPathInGroups(tokens[1..], v[m..]);
    assert v[..|p.path|] == p.path;
    assert v[..m] == p.path <==> m == |p.path|;
    assert m < |p.path| ==> MatchAt(tokens[1..], v[m..]).Some?;
  }

  lemma {:induction false} PathIsReadHereIff(tokens: seq<Token>, p: Stamp)
    requires tokens != [] && tokens[0] == Group(PathTag) && !HasTag(tokens[1..], PathTag)
    requires forall t :: HasTag(tokens, t) ==> Fits(p, t)
    ensures var m := MatchAt(tokens, Text(tokens, AllTags(), p));
            m.Some? && (ReadsPath(m, p.path) <==> IsShortest(tokens, p))
  {
    assert HasTag(tokens, PathTag) && PathTag in AllTags();
    assert forall t :: HasTag(tokens[1..], t) ==> HasTag(tokens, t);
    var rest, n := Text(tokens[1..], AllTags(), p), |p.path|;
    var v := p.path + rest;
    RenderedMatches(tokens[1..], p);
    assert v[n..] == rest && v[..n] == p.path;
    FirstLength(tokens, v, 0, n);
    var m :| 0 <= m <= n && MatchAt(tokens[1..], v[m..]).Some?
             && (forall j {:trigger v[j..]} :: 0 <= j < m ==> MatchAt(tokens[1..], v[j..]).None?)
             && MatchPath(tokens, v, 0) == Add(MatchAt(tokens[1..], v[m..]), PathTag, v[..m]);
    FirstLengthDecides(tokens, p, v, m);
  }

  lemma {:induction false} OneMoreHasMatch(tokens: seq<Token>, rest: string, p: Stamp)
    requires tokens != [] && MatchAt(tokens[1..], rest).Some? && (tokens[0].Group? ==> Fits(p, tokens[0].tag))
    ensures MatchAt(tokens, Piece(tokens[0], AllTags(), p) + rest).Some?
  {
    match tokens[0] {
      case Literal(c) => assert ([c] + rest)[1..] == rest;
      case Group(t) =>
        var v := Value(p, t);
        assert t in AllTags() && (v + rest)[|v|..] == rest;
        if t == PathTag {
          FirstLength(tokens, v + rest, 0, |v|);
        } else {
          ValueIsGroup(p, t, rest);
        }
    }
  }

  /** Whatever is read as the name, what has been encoded has the format. */
  lemma {:induction false} RenderedHasMatch(tokens: seq<Token>, p: Stamp)
    requires forall t :: HasTag(tokens, t) ==> Fits(p, t)
    ensures MatchAt(tokens, Text(tokens, AllTags(), p)).Some?
    decreases |tokens|
  {
    if tokens != [] {
      assert forall t :: HasTag(tokens[1..], t) ==> HasTag(tokens, t);
      assert tokens[0].Group? ==> HasTag(tokens, tokens[0].tag);
      RenderedHasMatch(tokens[1..], p);
      OneMoreHasMatch(tokens, Text(tokens[1..], AllTags(), p), p);
    }
  }

  lemma {:induction false} OnePathIsReadIff(tokens: seq<Token>, p: Stamp)
    requires HasTag(tokens, PathTag) && HasOnePath(tokens) && forall t :: HasTag(tokens, t) ==> Fits(p, t)
    ensures var m := MatchAt(tokens, Text(tokens, AllTags(), p));
            m.Some? && (ReadsPath(m, p.path) <==> IsUnambiguous(tokens, p))
    decreases |tokens|
  {
    assert forall t :: HasTag(tokens[1..], t) ==> HasTag(tokens, t);
    OnePathRest(tokens, p);
    if tokens[0] == Group(PathTag) {
      PathIsReadHereIff(tokens, p);
    } else {
      OnePathIsReadIff(tokens[1..], p);
      FirstNotPath(tokens, p);
    }
  }

  /** The name is read back if no shorter piece of it would do where it is said; in a format that says it once,
      only if. */
  lemma {:induction false} PathIsReadIff(tokens: seq<Token>, p: Stamp)
    requires HasTag(tokens, PathTag) && forall t :: HasTag(tokens, t) ==> Fits(p, t)
    ensures MatchAt(tokens, Text(tokens, AllTags(), p)).Some?
    ensures IsUnambiguous(tokens, p) || HasOnePath(tokens) ==>
              (ReadsPath(MatchAt(tokens, Text(tokens, AllTags(), p)), p.path) <==> IsUnambiguous(tokens, p))
  {
    RenderedHasMatch(tokens, p);
    if IsUnambiguous(tokens, p) {
      RenderedMatches(tokens, p);
    } else if HasOnePath(tokens) {
      OnePathIsReadIff(tokens, p);
    }
  }

  lemma {:induction false} OnePathRest(tokens: seq<Token>, p: Stamp)
    requires HasTag(tokens, PathTag) && HasOnePath(tokens)
    ensures HasOnePath(tokens[1..])
    ensures if tokens[0] == Group(PathTag)
            then !HasTag(tokens[1..], PathTag) && (IsUnambiguous(tokens, p) <==> IsShortest(tokens, p))
            else HasTag(tokens[1..], PathTag) && (IsUnambiguous(tokens, p) <==> IsUnambiguous(tokens[1..], p))
  {
    var rest := tokens[1..];
    assert tokens == [tokens[0]] + rest;
    assert forall j :: 0 <= j < |rest| ==> rest[j] == tokens[j + 1];
    if tokens[0] == Group(PathTag) {
      FirstDecides(tokens, p);
    } else {
      RestDecides(tokens, p);
    }
  }

  lemma {:induction false} FirstDecides(tokens: seq<Token>, p: Stamp)
    requires tokens != [] && tokens[0] == Group(PathTag) && HasOnePath(tokens)
    ensures IsUnambiguous(tokens, p) <==> IsShortest(tokens, p)
  {
    assert tokens[0..] == tokens;
  }

  lemma {:induction false} RestDecides(tokens: seq<Token>, p: Stamp)
    requires tokens != [] && tokens[0] != Group(PathTag)
    ensures IsUnambiguous(tokens, p) <==> IsUnambiguous(tokens[1..], p)
  {
    var rest := tokens[1..];
    if IsUnambiguous(rest, p) {
      forall j | 0 <= j < |tokens| && tokens[j] == Group(PathTag) ensures IsShortest(tokens[j..], p) {
        assert rest[j - 1] == tokens[j] && rest[j - 1..] == tokens[j..];
      }
    }
    if IsUnambiguous(tokens, p) {
      UnambiguousRest(tokens, p);
    }
  }

  /** A recording is read back from its path as far as the format says it, name and start time to the microsecond,
      if its name is not read too short and its zone, where that matters, is a whole number of hours; in a format that
      has the name at most once, only if. */
  lemma {:induction false} DecodingRecoversIff(p: Stamp, format: string)
    requires MakesNoTag(p, format) && forall t :: HasTag(Tokens(format), t) ==> Fits(p, t)
    ensures var tokens, m := Tokens(format), FindSubmatch(Tokens(format), Encode(p, format));
            && m.Some? && ValidGroups(m.value)
            && (IsUnambiguous(tokens, p) || HasOnePath(tokens) ==>
                  (DecodedOf(m.value) == Said(tokens, p) <==>
                   && IsUnambiguous(tokens, p)
                   && (HasTag(tokens, Unix) || !HasTag(tokens, Zone) || p.zone % 3600 == 0)))
  {
    var tokens := Tokens(format);
    EncodeRendersIff(p, format);
    RenderedHasMatch(tokens, p);
    SubmatchHasValidGroups(tokens, Encode(p, format));
    if IsUnambiguous(tokens, p) {
      RenderedMatches(tokens, p);
      GroupsAreSaid(FindSubmatch(tokens, Encode(p, format)).value, tokens, p);
    } else if HasOnePath(tokens) {
      OneNameIsReadIff(tokens, p);
    }
  }

  /** A format without the name is never ambiguous. */
  lemma {:induction false} OneNameIsReadIff(tokens: seq<Token>, p: Stamp)
    requires HasOnePath(tokens) && !IsUnambiguous(tokens, p) && forall t :: HasTag(tokens, t) ==> Fits(p, t)
    ensures HasTag(tokens, PathTag) && !ReadsPath(MatchAt(tokens, Text(tokens, AllTags(), p)), p.path)
  {
    PathIsReadIff(tokens, p);
  }

  /** A name that ends like another recording of a shorter one is read as that. */
  lemma {:induction false} ShorterNameExample(p: Stamp, name: string, other: nat, tokens: seq<Token>)
    requires 1000000000 <= other < 10000000000 && p.path == name + ("-" + FormatInt(other))
    requires tokens == [Group(PathTag), Literal('-'), Group(Unix)]
    ensures !IsUnambiguous(tokens, p)
  {
    var rest := Text(tokens[1..], AllTags(), p);
    var all, tail := p.path + rest, ("-" + FormatInt(other)) + rest;
    assert all[|name|..] == tail;
    assert tail[1..] == FormatInt(other) + rest;
    var q := p.(unix := other);
    ValueIsGroup(q, Unix, rest);
    assert tokens[1..][0] == Literal('-') && tokens[1..][1..] == [Group(Unix)] && [Group(Unix)][1..] == [];
    assert MatchAt([Group(Unix)], tail[1..]).Some?;
    assert MatchAt(tokens[1..], tail).Some?;
    assert tokens[0..] == tokens && !IsShortest(tokens, p);
  }

  // names that are said more than once

  /** A name that is followed by a character goes up to where that comes first, if the rest then matches. */
  lemma {:induction false} UpTo(tokens: seq<Token>, c: char, v: string, k: nat, n: nat)
    requires |tokens| > 1 && tokens[0] == Group(PathTag) && tokens[1] == Literal(c) && k <= n < |v| && v[n] == c
    requires (forall j :: k <= j < n ==> v[j] != c && v[j] != '\n') && MatchAt(tokens[1..], v[n..]).Some?
    ensures MatchPath(tokens, v, k) == Add(MatchAt(tokens[1..], v[n..]), PathTag, v[..n])
    decreases n - k
  {
    if k < n {
      assert v[k..][0] == v[k];
      UpTo(tokens, c, v, k + 1, n);
    }
  }

  /** x stands for the name, up to the next c in the text. */
  lemma {:induction false} NameThen(tokens: seq<Token>, c: char, x: string, rest: string)
    requires |tokens| > 1 && tokens[0] == Group(PathTag) && tokens[1] == Literal(c) && c !in x && '\n' !in x
    requires MatchAt(tokens[2..], rest).Some?
    ensures MatchAt(tokens, x + ([c] + rest)) == Add(MatchAt(tokens[2..], rest), PathTag, x)
  {
    var v := x + ([c] + rest);
    assert tokens[1..][1..] == tokens[2..] && ([c] + rest)[1..] == rest && v[|x|..] == [c] + rest && v[..|x|] == x;
    UpTo(tokens, c, v, 0, |x|);
  }

  /** Of several names only the last one counts: what an earlier one lost, the next one can have taken. */
  lemma {:induction false} LaterNameExample(p: Stamp, x: string, tokens: seq<Token>)
    requires x != "" && '-' !in x && '+' !in x && '/' !in x && '\n' !in x && p.path == x + "-" + x
    requires tokens == [Group(PathTag), Literal('-'), Group(PathTag), Literal('+'), Group(PathTag), Literal('/')]
    ensures !IsUnambiguous(tokens, p)
    ensures ReadsPath(MatchAt(tokens, Text(tokens, AllTags(), p)), p.path)
  {
    var q := p.path;
    var second, third := tokens[2..], tokens[4..];
    assert second[2..] == third && third[2..] == [];
    NameThen(third, '/', q, "");
    var tail := q + (['/'] + "");
    NameThen(second, '+', x + "-" + q, tail);
    var middle := (x + "-" + q) + (['+'] + tail);
    NameThen(tokens, '-', x, middle);
    TextOfThree(tokens, p, q, tail);
    assert q + (['-'] + (q + (['+'] + tail))) == x + (['-'] + middle);
    ShorterFirst(tokens, p, x, middle);
  }

  lemma {:induction false} TextFrom(tokens: seq<Token>, k: nat, p: Stamp)
    requires k < |tokens|
    ensures Text(tokens[k..], AllTags(), p) == Piece(tokens[k], AllTags(), p) + Text(tokens[k + 1..], AllTags(), p)
  {
    assert tokens[k..][0] == tokens[k] && tokens[k..][1..] == tokens[k + 1..];
  }

  lemma {:induction false} TextOfThree(tokens: seq<Token>, p: Stamp, q: string, tail: string)
    requires tokens == [Group(PathTag), Literal('-'), Group(PathTag), Literal('+'), Group(PathTag), Literal('/')]
    requires q == p.path && tail == q + (['/'] + "")
    ensures Text(tokens, AllTags(), p) == q + (['-'] + (q + (['+'] + tail)))
  {
    assert PathTag in AllTags() && tokens[0..] == tokens && tokens[6..] == [];
    TextFrom(tokens, 5, p);
    TextFrom(tokens, 4, p);
    TextFrom(tokens, 3, p);
    TextFrom(tokens, 2, p);
    TextFrom(tokens, 1, p);
    TextFrom(tokens, 0, p);
  }

  lemma {:induction false} ShorterFirst(tokens: seq<Token>, p: Stamp, x: string, middle: string)
    requires |tokens| > 1 && tokens[0] == Group(PathTag) && tokens[1] == Literal('-') && p.path == x + "-" + x
    requires MatchAt(tokens[2..], middle).Some? && Text(tokens, AllTags(), p) == x + (['-'] + middle)
    ensures !IsUnambiguous(tokens, p)
  {
    var all := p.path + Text(tokens[1..], AllTags(), p);
    assert PathTag in AllTags() && all == Text(tokens, AllTags(), p);
    assert all[|x|..] == ['-'] + middle && (['-'] + middle)[1..] == middle && tokens[1..][1..] == tokens[2..];
    assert MatchAt(tokens[1..], all[|x|..]).Some?;
    assert tokens[0..] == tokens && !IsShortest(tokens, p);
  }
}
