/** What encoding makes of the format of a recording path. A format is a sequence of tags and of characters that
    stand for themselves; the source replaces one tag after the other in the whole text. */
module RecordEncode {
  import opened Options
  import opened RecordNames
  import opened RecordPath
  import opened Config

  datatype Token = Literal(c: char) | Group(tag: Tag)

  function TagAt(s: string): (r: Option<Tag>)
    ensures r.Some? ==> TagText(r.value) <= s
  {
    if s == "" || s[0] != '%' then None
    else if "%path" <= s then Some(PathTag)
    else if "%Y" <= s then Some(Year)
    else if "%m" <= s then Some(Month)
    else if "%d" <= s then Some(Day)
    else if "%H" <= s then Some(Hour)
    else if "%M" <= s then Some(Minute)
    else if "%S" <= s then Some(Second)
    else if "%f" <= s then Some(Micros)
    else if "%z" <= s then Some(Zone)
    else if "%s" <= s then Some(Unix)
    else None
  }

  function Tokens(format: string): seq<Token>
    decreases |format|
  {
    if format == "" then []
    else
      match TagAt(format)
      case None => [Literal(format[0])] + Tokens(format[1..])
      case Some(t) => [Group(t)] + Tokens(format[|TagText(t)|..])
  }

  function Piece(t: Token, replaced: set<Tag>, p: Stamp): string {
    match t
    case Literal(c) => [c]
    case Group(tag) => if tag in replaced then Value(p, tag) else TagText(tag)
  }

  /** The text of a format in which some tags have been replaced. */
  function Text(tokens: seq<Token>, replaced: set<Tag>, p: Stamp): string {
    if tokens == [] then "" else Piece(tokens[0], replaced, p) + Text(tokens[1..], replaced, p)
  }

  lemma {:induction false} TokensMakeTheFormat(format: string, p: Stamp)
    ensures Text(Tokens(format), {}, p) == format
    decreases |format|
  {
    if format != "" {
      var r := TagAt(format);
      if r.None? {
        TokensMakeTheFormat(format[1..], p);
        assert Tokens(format)[1..] == Tokens(format[1..]);
      } else {
        var rest := format[|TagText(r.value)|..];
        TokensMakeTheFormat(rest, p);
        assert Tokens(format)[1..] == Tokens(rest);
        assert format == TagText(r.value) + rest;
      }
    }
  }

  lemma {:induction false} TagsDiffer(s: Tag, t: Tag)
    requires s != t
    ensures TagText(s)[1] != TagText(t)[1]
  {
  }

  lemma {:induction false} NoMarkInValues(p: Stamp, t: Tag)
    requires t != PathTag
    ensures '%' !in Value(p, t)
  {
  }

  /** The values that are put in place of tags do not begin with the second character of a tag. */
  lemma {:induction false} ValuesFollowMarks(p: Stamp, t: Tag, tag: Tag)
    requires tag != PathTag && t != PathTag
    ensures Value(p, t) != "" && Value(p, t)[0] != TagText(tag)[1]
  {
    var v := Value(p, t);
    assert v != "" && (IsDigit(v[0]) || v[0] == 'Z' || v[0] == '+' || v[0] == '-');
  }

  lemma {:induction false} FirstToken(format: string)
    requires format != ""
    ensures var r, tokens := TagAt(format), Tokens(format);
            && tokens != [] && tokens[0] == (if r.None? then Literal(format[0]) else Group(r.value))
            && tokens[1..] == Tokens(if r.None? then format[1..] else format[|TagText(r.value)|..])
  {
  }

  /** A percent sign that begins no tag does not begin one after some tags have been replaced either. */
  lemma {:induction false} MarkStaysMark(format: string, replaced: set<Tag>, p: Stamp, tag: Tag)
    requires format != "" && format[0] == '%' && TagAt(format).None?
    requires tag !in replaced && PathTag !in replaced && (tag == PathTag ==> replaced == {})
    ensures !(TagText(tag) <= Text(Tokens(format), replaced, p))
  {
    FirstToken(format);
    if replaced == {} {
      TokensMakeTheFormat(format, p);
    } else if format[1..] != "" {
      FirstToken(format[1..]);
      var tokens, rest := Tokens(format), Tokens(format[1..]);
      assert tokens[0] == Literal('%') && tokens[1] == rest[0];
      NextIsNoTag(format, replaced, p, tag, Text(rest, replaced, p));
    }
  }

  lemma {:induction false} NextIsNoTag(format: string, replaced: set<Tag>, p: Stamp, tag: Tag, text: string)
    requires |format| > 1 && format[0] == '%' && TagAt(format).None? && tag != PathTag && PathTag !in replaced
    requires Tokens(format)[1..] == Tokens(format[1..]) && Tokens(format)[0] == Literal('%')
    requires Tokens(format[1..]) != [] && |Tokens(format)| > 1 && Tokens(format)[1] == Tokens(format[1..])[0]
    requires text == Text(Tokens(format[1..]), replaced, p)
    ensures !(TagText(tag) <= ['%'] + text)
  {
    var first := Tokens(format[1..])[0];
    FirstToken(format[1..]);
    match first
    case Literal(c) =>
      assert format[1] == c == text[0];
      assert TagText(tag) <= ['%'] + text ==> TagText(tag) <= format;
    case Group(t) =>
      if t in replaced {
        ValuesFollowMarks(p, t, tag);
        assert text[0] == Value(p, t)[0] && (['%'] + text)[1] == text[0];
      } else {
        assert text[0] == '%' && (['%'] + text)[1] == '%';
      }
  }

  lemma {:induction false} ReplaceBehindTag(t: Tag, tag: Tag, rest: string, after: string)
    requires t != tag
    ensures ReplaceAll(TagText(t) + rest, TagText(tag), after) == TagText(t) + ReplaceAll(rest, TagText(tag), after)
  {
    var piece, before := TagText(t), TagText(tag);
    var s := piece + rest;
    TagsDiffer(tag, t);
    assert s[1] == piece[1] != before[1];
    assert s[1..] == piece[1..] + rest;
    ReplaceBehind(piece[1..], rest, before, after);
    assert [s[0]] + (piece[1..] + ReplaceAll(rest, before, after)) == piece + ReplaceAll(rest, before, after);
  }

  /** Replacing a tag in the text that a first token stands for and in the rest. */
  lemma {:induction false} ReplacePiece(t: Token, rest: string, replaced: set<Tag>, p: Stamp, tag: Tag)
    requires tag !in replaced && (t == Literal('%') ==> !(TagText(tag) <= ['%'] + rest))
    requires t.Group? && t.tag in replaced ==> '%' !in Value(p, t.tag)
    ensures ReplaceAll(Piece(t, replaced, p) + rest, TagText(tag), Value(p, tag)) ==
            Piece(t, replaced + {tag}, p) + ReplaceAll(rest, TagText(tag), Value(p, tag))
  {
    var piece, before, after := Piece(t, replaced, p), TagText(tag), Value(p, tag);
    var s := piece + rest;
    if t == Group(tag) {
      assert s[|before|..] == rest;
    } else if t == Literal('%') {
      assert s == ['%'] + rest && s[1..] == rest;
    } else if t.Literal? || t.tag in replaced {
      ReplaceBehind(piece, rest, before, after);
    } else {
      ReplaceBehindTag(t.tag, tag, rest, after);
    }
  }

  lemma {:induction false} ReplaceText(format: string, replaced: set<Tag>, p: Stamp, tag: Tag)
    requires tag !in replaced && PathTag !in replaced && (tag == PathTag ==> replaced == {})
    ensures ReplaceAll(Text(Tokens(format), replaced, p), TagText(tag), Value(p, tag)) ==
            Text(Tokens(format), replaced + {tag}, p)
    decreases |format|
  {
    if format != "" {
      var r, tokens := TagAt(format), Tokens(format);
      var rest := if r.None? then format[1..] else format[|TagText(r.value)|..];
      FirstToken(format);
      ReplaceText(rest, replaced, p, tag);
      var text := Text(Tokens(rest), replaced, p);
      if tokens[0] == Literal('%') {
        MarkStaysMark(format, replaced, p, tag);
        assert Text(tokens, replaced, p) == ['%'] + text;
      } else if tokens[0].Group? && tokens[0].tag in replaced {
        NoMarkInValues(p, tokens[0].tag);
      }
      ReplacePiece(tokens[0], text, replaced, p, tag);
    }
  }

  function Set(tags: seq<Tag>): set<Tag> {
    set t | t in tags
  }

  predicate Distinct(tags: seq<Tag>) {
    forall i, j :: 0 <= i < j < |tags| ==> tags[i] != tags[j]
  }

  lemma {:induction false} EncodeText(format: string, replaced: set<Tag>, p: Stamp, tags: seq<Tag>)
    requires Distinct(tags) && (forall t :: t in tags ==> t !in replaced) && PathTag !in tags && PathTag !in replaced
    ensures EncodeTags(p, Text(Tokens(format), replaced, p), tags) == Text(Tokens(format), replaced + Set(tags), p)
    decreases |tags|
  {
    if tags == [] {
      assert replaced + Set(tags) == replaced;
    } else {
      ReplaceText(format, replaced, p, tags[0]);
      EncodeText(format, replaced + {tags[0]}, p, tags[1..]);
      assert replaced + {tags[0]} + Set(tags[1..]) == replaced + Set(tags);
    }
  }

  // the name is put in first

  /** The tags of the start time. */
  function StampTags(): set<Tag> {
    Set(TAGS[1..])
  }

  function AllTags(): set<Tag> {
    Set(TAGS)
  }

  /** What replacing %path makes of a format. */
  function Named(p: Stamp, format: string): string {
    Text(Tokens(format), {PathTag}, p)
  }

  lemma {:induction false} RestOfTags()
    ensures Distinct(TAGS[1..]) && PathTag !in TAGS[1..]
  {
    assert TAGS[1..] == [Year, Month, Day, Hour, Minute, Second, Micros, Zone, Unix];
  }

  lemma {:induction false} EveryTag(t: Tag)
    ensures t in AllTags() && (t in StampTags() <==> t != PathTag)
  {
    assert TAGS[1..] == [Year, Month, Day, Hour, Minute, Second, Micros, Zone, Unix];
    assert t in TAGS && (t in TAGS[1..] <==> t != PathTag);
  }

  lemma {:induction false} NameAndStamp()
    ensures {PathTag} + StampTags() == AllTags() && {PathTag} !! StampTags()
  {
    forall t ensures t in AllTags() && (t in StampTags() <==> t != PathTag) {
      EveryTag(t);
    }
  }

  /** Whatever the name is: replacing the tags one after the other puts in the name, and then gives every tag of
      what results its value at its place. */
  lemma {:induction false} EncodeIs(p: Stamp, format: string)
    ensures Encode(p, format) == Text(Tokens(Named(p, format)), StampTags(), p)
  {
    TokensMakeTheFormat(format, p);
    ReplaceText(format, {}, p, PathTag);
    assert {} + {PathTag} == {PathTag};
    assert EncodeTags(p, format, TAGS) == EncodeTags(p, Named(p, format), TAGS[1..]);
    TokensMakeTheFormat(Named(p, format), p);
    RestOfTags();
    EncodeText(Named(p, format), {}, p, TAGS[1..]);
    assert {} + StampTags() == StampTags();
  }

  /** How many tags of the start time there are. */
  function CountTags(tokens: seq<Token>): nat {
    if tokens == [] then 0
    else (if tokens[0].Group? && tokens[0].tag != PathTag then 1 else 0) + CountTags(tokens[1..])
  }

  /** Putting in the name does not complete anything to a tag, and does not bring one. */
  predicate MakesNoTag(p: Stamp, format: string) {
    CountTags(Tokens(Named(p, format))) == CountTags(Tokens(format))
  }

  // a tag that is made is seen: it takes a percent sign

  function Marks(s: string): nat {
    if s == "" then 0 else (if s[0] == '%' then 1 else 0) + Marks(s[1..])
  }

  lemma {:induction false} MarksAppend(a: string, b: string)
    ensures Marks(a + b) == Marks(a) + Marks(b)
    decreases |a|
  {
    if a == "" {
      assert a + b == b;
    } else {
      MarksAppend(a[1..], b);
      assert (a + b)[1..] == a[1..] + b;
    }
  }

  lemma {:induction false} NoMarks(s: string)
    requires '%' !in s
    ensures Marks(s) == 0
  {
    if s != "" {
      NoMarks(s[1..]);
    }
  }

  lemma {:induction false} MarksOfTag(p: Stamp, t: Tag)
    ensures Marks(TagText(t)) == 1
    ensures t != PathTag ==> Marks(Value(p, t)) == 0
  {
    NoMarks(TagText(t)[1..]);
    if t != PathTag {
      NoMarkInValues(p, t);
      NoMarks(Value(p, t));
    }
  }

  lemma {:induction false} MarksOfText(tokens: seq<Token>, p: Stamp, some: set<Tag>, all: set<Tag>)
    requires all == some + StampTags() && some !! StampTags()
    ensures Marks(Text(tokens, some, p)) == Marks(Text(tokens, all, p)) + CountTags(tokens)
    decreases |tokens|
  {
    if tokens != [] {
      var t := tokens[0];
      MarksOfText(tokens[1..], p, some, all);
      MarksAppend(Piece(t, some, p), Text(tokens[1..], some, p));
      MarksAppend(Piece(t, all, p), Text(tokens[1..], all, p));
      if t.Group? {
        MarksOfTag(p, t.tag);
      }
    }
  }

  // otherwise, what is put in goes through as it is

  lemma {:induction false} PlainFirst(c: char, s: string, p: Stamp)
    requires c != '%'
    ensures Tokens([c] + s) == [Literal(c)] + Tokens(s)
    ensures CountTags(Tokens([c] + s)) == CountTags(Tokens(s))
    ensures Text(Tokens([c] + s), StampTags(), p) == [c] + Text(Tokens(s), StampTags(), p)
  {
    assert ([c] + s)[1..] == s && ([Literal(c)] + Tokens(s))[1..] == Tokens(s);
  }

  lemma {:induction false} FirstBefore(x: string, s: string)
    requires x != ""
    ensures [x[0]] + (x[1..] + s) == x + s
  {
  }

  lemma {:induction false} PlainGoesThrough(x: string, s: string, p: Stamp)
    requires '%' !in x
    ensures CountTags(Tokens(x + s)) == CountTags(Tokens(s))
    ensures Text(Tokens(x + s), StampTags(), p) == x + Text(Tokens(s), StampTags(), p)
    decreases |x|
  {
    if x == "" {
      assert x + s == s;
    } else {
      PlainGoesThrough(x[1..], s, p);
      PlainFirst(x[0], x[1..] + s, p);
      FirstBefore(x, s);
      FirstBefore(x, Text(Tokens(s), StampTags(), p));
    }
  }

  /** What goes through has as many tags with something before it, and comes after it unchanged. */
  predicate GoesThrough(x: string, s: string, p: Stamp) {
    && CountTags(Tokens(x + s)) >= CountTags(Tokens(s))
    && (CountTags(Tokens(x + s)) == CountTags(Tokens(s)) ==>
          Text(Tokens(x + s), StampTags(), p) == x + Text(Tokens(s), StampTags(), p))
  }

  lemma {:induction false} TagFirst(t: Tag, s: string, p: Stamp)
    ensures Tokens(TagText(t) + s) == [Group(t)] + Tokens(s)
    ensures CountTags(Tokens(TagText(t) + s)) == CountTags(Tokens(s)) + (if t == PathTag then 0 else 1)
    ensures Text(Tokens(TagText(t) + s), StampTags(), p) ==
            (if t == PathTag then TagText(t) else Value(p, t)) + Text(Tokens(s), StampTags(), p)
  {
    var all := TagText(t) + s;
    OnlyTagAt(t, s);
    assert all[|TagText(t)|..] == s && ([Group(t)] + Tokens(s))[1..] == Tokens(s);
  }

  lemma {:induction false} OnlyTagAt(t: Tag, s: string)
    ensures TagAt(TagText(t) + s) == Some(t)
  {
    var all := TagText(t) + s;
    assert TagText(t) <= all && all[1] == TagText(t)[1];
  }

  lemma {:induction false} MadeTag(t: Tag, rest: string, p: Stamp)
    ensures GoesThrough("%", TagText(t)[1..] + rest, p)
  {
    var after := TagText(t)[1..];
    FirstBefore(TagText(t), rest);
    TagFirst(t, rest, p);
    PlainGoesThrough(after, rest, p);
    FirstBefore(TagText(t), Text(Tokens(rest), StampTags(), p));
  }

  lemma {:induction false} MarkGoesThrough(s: string, p: Stamp)
    ensures GoesThrough("%", s, p)
  {
    var all, r := "%" + s, TagAt("%" + s);
    assert all[1..] == s;
    if r.None? {
      FirstToken(all);
      assert ([Literal('%')] + Tokens(s))[1..] == Tokens(s);
      assert Tokens(all) == [Literal('%')] + Tokens(s);
    } else {
      MadeTag(r.value, all[|TagText(r.value)|..], p);
      assert s == TagText(r.value)[1..] + all[|TagText(r.value)|..];
    }
  }

  lemma {:induction false} AnythingGoesThrough(x: string, s: string, p: Stamp)
    ensures GoesThrough(x, s, p)
    decreases |x|
  {
    if x == "" {
      assert x + s == s;
      assert "" + Text(Tokens(s), StampTags(), p) == Text(Tokens(s), StampTags(), p);
    } else {
      AnythingGoesThrough(x[1..], s, p);
      if x[0] == '%' {
        MarkGoesThrough(x[1..] + s, p);
      } else {
        PlainFirst(x[0], x[1..] + s, p);
      }
      FirstBefore(x, s);
      FirstBefore(x, Text(Tokens(s), StampTags(), p));
    }
  }

  lemma {:induction false} NamedFirst(p: Stamp, format: string)
    requires format != ""
    ensures var t := Tokens(format)[0];
            var rest := if t.Literal? then format[1..] else format[|TagText(t.tag)|..];
            && Tokens(format)[1..] == Tokens(rest)
            && Named(p, format) == Piece(t, {PathTag}, p) + Named(p, rest)
            && Text(Tokens(format), AllTags(), p) == Piece(t, AllTags(), p) + Text(Tokens(rest), AllTags(), p)
            && CountTags(Tokens(format)) ==
               (if t.Group? && t.tag != PathTag then 1 else 0) + CountTags(Tokens(rest))
  {
    FirstToken(format);
  }

  /** Putting in the name keeps all tags, and if it makes none, all values are where they should be. */
  lemma {:induction false} NameKeepsTags(p: Stamp, format: string)
    ensures CountTags(Tokens(Named(p, format))) >= CountTags(Tokens(format))
    ensures MakesNoTag(p, format) ==>
              Text(Tokens(Named(p, format)), StampTags(), p) == Text(Tokens(format), AllTags(), p)
    decreases |format|
  {
    if format != "" {
      var t := Tokens(format)[0];
      var rest := if t.Literal? then format[1..] else format[|TagText(t.tag)|..];
      NamedFirst(p, format);
      NameKeepsTags(p, rest);
      if t.Group? && t.tag != PathTag {
        TagFirst(t.tag, Named(p, rest), p);
      } else {
        AnythingGoesThrough(Piece(t, {PathTag}, p), Named(p, rest), p);
      }
    }
  }

  /** Encoding gives every token its value at its place if and only if putting in the name makes no tag. */
  lemma {:induction false} EncodeRendersIff(p: Stamp, format: string)
    ensures Encode(p, format) == Text(Tokens(format), AllTags(), p) <==> MakesNoTag(p, format)
  {
    EncodeIs(p, format);
    NameKeepsTags(p, format);
    TokensMakeTheFormat(Named(p, format), p);
    NameAndStamp();
    assert {} + StampTags() == StampTags();
    MarksOfText(Tokens(Named(p, format)), p, {}, StampTags());
    MarksOfText(Tokens(format), p, {PathTag}, AllTags());
  }

  // valid names

  /** Whether a name can follow a percent sign: together they are no tag of the start time. */
  predicate FollowsMark(path: string) {
    path != "" && path[0] !in "YmdHMSfzs"
  }

  /** Percent signs that begin no tag do not begin one when a name is put behind them. */
  predicate MarksStayMarks(tokens: seq<Token>, p: Stamp) {
    forall k: nat :: k + 1 < |tokens| && tokens[k] == Literal('%') && tokens[k + 1] == Group(PathTag) ==>
      FollowsMark(p.path)
  }

  lemma {:induction false} MarksStayIff(tokens: seq<Token>, p: Stamp)
    requires tokens != []
    ensures MarksStayMarks(tokens, p) <==>
            MarksStayMarks(tokens[1..], p) &&
            (|tokens| > 1 && tokens[0] == Literal('%') && tokens[1] == Group(PathTag) ==> FollowsMark(p.path))
  {
    var rest := tokens[1..];
    if MarksStayMarks(tokens, p) {
      forall k: nat | k + 1 < |rest| && rest[k] == Literal('%') && rest[k + 1] == Group(PathTag)
        ensures FollowsMark(p.path)
      {
        assert tokens[k + 1] == rest[k] && tokens[(k + 1) + 1] == rest[k + 1];
      }
    } else {
      var k: nat :| k + 1 < |tokens| && tokens[k] == Literal('%') && tokens[k + 1] == Group(PathTag) &&
        !FollowsMark(p.path);
      assert k > 0 ==> rest[k - 1] == tokens[k] && rest[(k - 1) + 1] == tokens[k + 1];
    }
  }

  lemma {:induction false} StampTagAt(s: string)
    requires s != "" && s[0] == '%'
    ensures (TagAt(s).Some? && TagAt(s).value != PathTag) <==> |s| > 1 && s[1] in "YmdHMSfzs"
  {
    assert |s| > 1 ==> s == ['%', s[1]] + s[2..];
  }

  /** How many tags a percent sign makes of what follows it. */
  lemma {:induction false} MarkMakes(s: string, p: Stamp)
    ensures CountTags(Tokens("%" + s)) ==
            CountTags(Tokens(s)) + (if s != "" && s[0] in "YmdHMSfzs" then 1 else 0)
  {
    var all, r := "%" + s, TagAt("%" + s);
    FirstToken(all);
    StampTagAt(all);
    assert all[1..] == s;
    if r.None? {
      assert Tokens(all) == [Literal('%')] + Tokens(s);
    } else {
      var after, rest := TagText(r.value)[1..], all[|TagText(r.value)|..];
      assert all == TagText(r.value) + rest && s == after + rest;
      TagFirst(r.value, rest, p);
      PlainGoesThrough(after, rest, p);
    }
  }

  /** What comes first when a name without percent signs has been put in. */
  lemma {:induction false} NamedBegins(p: Stamp, format: string)
    requires p.path != "" && '%' !in p.path
    ensures var s, tokens := Named(p, format), Tokens(format);
            && (tokens == [] ==> s == "")
            && (tokens != [] ==>
                  s != "" && s[0] == match tokens[0]
                                     case Literal(c) => c
                                     case Group(t) => if t == PathTag then p.path[0] else '%')
  {
    if format != "" {
      NamedFirst(p, format);
    }
  }

  lemma {:induction false} AfterMark(p: Stamp, format: string)
    requires format != "" && Tokens(format)[0] == Literal('%') && p.path != "" && '%' !in p.path
    ensures var tokens, s := Tokens(format), Named(p, format[1..]);
            (s != "" && s[0] in "YmdHMSfzs") <==> |tokens| > 1 && tokens[1] == Group(PathTag) && !FollowsMark(p.path)
  {
    FirstToken(format);
    StampTagAt(format);
    NamedBegins(p, format[1..]);
    if format[1..] != "" {
      FirstToken(format[1..]);
    }
  }

  /** A valid name makes no tag if and only if it is not put behind a percent sign with which it would. */
  lemma {:induction false} PlainNameMakesNoTagIff(p: Stamp, format: string)
    requires p.path != "" && '%' !in p.path
    ensures MakesNoTag(p, format) <==> MarksStayMarks(Tokens(format), p)
    decreases |format|
  {
    if format != "" {
      var tokens := Tokens(format);
      var t := tokens[0];
      var rest := if t.Literal? then format[1..] else format[|TagText(t.tag)|..];
      NamedFirst(p, format);
      NameKeepsTags(p, rest);
      PlainNameMakesNoTagIff(p, rest);
      MarksStayIff(tokens, p);
      if t.Group? && t.tag != PathTag {
        TagFirst(t.tag, Named(p, rest), p);
      } else if t == Literal('%') {
        MarkMakes(Named(p, rest), p);
        AfterMark(p, format);
      } else {
        PlainGoesThrough(Piece(t, {PathTag}, p), Named(p, rest), p);
      }
    }
  }

  /** Every valid path name can be put into a format, unless it completes a percent sign to a tag. */
  lemma {:induction false} ValidNamesRenderIff(p: Stamp, format: string)
    requires IsValidPathName(p.path)
    ensures Encode(p, format) == Text(Tokens(format), AllTags(), p) <==> MarksStayMarks(Tokens(format), p)
  {
    ValidNameIsPlain(p.path);
    EncodeRendersIff(p, format);
    PlainNameMakesNoTagIff(p, format);
  }

  lemma {:induction false} ValidNameIsPlain(path: string)
    requires IsValidPathName(path)
    ensures path != "" && '%' !in path
  {
  }
}
