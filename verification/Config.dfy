/** Path configurations, as far as the path lifecycle depends on them. */
module Config {
  import opened Options
  import opened Sorting

  datatype SourceKind = FromPublisher | FromRedirect | FromStatic

  datatype RecordSettings = RecordSettings(
    path: string, mpegts: bool, partDuration: int, maxPartSize: nat, segmentDuration: int, deleteAfter: int)

  /** The fields that a running path can never change. `other` stands for those the model does not look at. */
  datatype Fixed = Fixed(
    source: SourceKind, sourceOnDemand: bool, sourceRedirect: string, fallback: string,
    runOnDemand: bool, overridePublisher: bool, maxReaders: nat, other: string)

  /** The fields that can be changed while the path is running. */
  datatype Hot = Hot(record: bool, settings: RecordSettings, camera: string)

  datatype Conf = Conf(name: string, regexp: Option<string>, fixed: Fixed, hot: Hot)
  {
    predicate HasStaticSource() {
      fixed.source != FromPublisher && fixed.source != FromRedirect
    }

    predicate HasOnDemandStaticSource() {
      HasStaticSource() && fixed.sourceOnDemand
    }

    predicate HasOnDemandPublisher() {
      fixed.runOnDemand
    }

    /** What configuration validation establishes. */
    predicate Valid() {
      && (HasStaticSource() && regexp.Some? ==> fixed.sourceOnDemand)
      && (fixed.sourceOnDemand ==> fixed.source != FromPublisher)
      && (fixed.runOnDemand ==> fixed.source == FromPublisher)
    }
  }

  /** Hot reload is possible when the old configuration, with every reloadable field taken from
      the new one, equals the new one. */
  predicate CanBeUpdated(oldConf: Conf, newConf: Conf) {
    var clone := oldConf.(name := newConf.name, regexp := newConf.regexp, hot := newConf.hot);
    newConf == clone
  }

  predicate IsPathNameChar(c: char) {
    '0' <= c <= '9' || 'a' <= c <= 'z' || 'A' <= c <= 'Z' || c in "_-/.~:"
  }

  predicate IsValidPathName(name: string) {
    && name != ""
    && name[0] != '/'
    && name[|name| - 1] != '/'
    && forall i :: 0 <= i < |name| ==> IsPathNameChar(name[i])
  }

  /** Digits, letters, and underscore, minus, slash, dot, tilde and colon, by their numbers. */
  predicate HasPathCode(c: char) {
    var n := c as int;
    48 <= n <= 57 || 65 <= n <= 90 || 97 <= n <= 122 || n in {95, 45, 47, 46, 126, 58}
  }

  /** A name is refused if and only if it is empty, begins or ends with a slash or has a character that is none of
      these. */
  lemma {:induction false} InvalidNameIff(name: string)
    ensures !IsValidPathName(name) <==>
            || name == "" || name[0] as int == 47 || name[|name| - 1] as int == 47
            || exists i :: 0 <= i < |name| && !HasPathCode(name[i])
  {
    if name != "" && (forall i :: 0 <= i < |name| ==> HasPathCode(name[i])) {
      forall i | 0 <= i < |name| ensures IsPathNameChar(name[i]) {
        assert HasPathCode(name[i]);
      }
    }
  }

  /** Byte-wise string comparison. */
  predicate StringLess(a: string, b: string) {
    b != "" && (a == "" || a[0] < b[0] || (a[0] == b[0] && StringLess(a[1..], b[1..])))
  }

  predicate IsCatchAll(name: string) {
    name == "all" || name == "all_others"
  }

  /** The order in which regular expressions are tried: by name, catch-all configurations last. */
  predicate TriedBefore(a: Conf, b: Conf) {
    if IsCatchAll(a.name) then false
    else if IsCatchAll(b.name) then true
    else StringLess(a.name, b.name)
  }

  datatype Lookup = Found(conf: Conf) | InvalidName | NotConfigured

  /** Whether a regular expression matches a path name: regular expressions themselves are not modelled. */
  type Matcher = (string, string) -> bool

  /** A configuration map as validation leaves it: keyed by name, with at most one catch-all. */
  ghost predicate WellFormed(confs: map<string, Conf>) {
    && (forall k :: k in confs ==> confs[k].name == k && confs[k].Valid())
    && !("all" in confs && "all_others" in confs)
  }

  ghost predicate Candidate(confs: map<string, Conf>, name: string, matches: Matcher, c: Conf) {
    && c.name in confs && confs[c.name] == c
    && c.regexp.Some? && matches(c.regexp.value, name)
  }

  /** What the lookup of a path name must return: the configuration with exactly that name or, for
      a valid name, the first matching regular expression. */
  ghost predicate IsLookup(confs: map<string, Conf>, name: string, matches: Matcher, r: Lookup) {
    if name in confs then r == Found(confs[name])
    else if !IsValidPathName(name) then r == InvalidName
    else match r
      case Found(c) =>
        && Candidate(confs, name, matches, c)
        && forall d :: Candidate(confs, name, matches, d) && d != c ==> TriedBefore(c, d)
      case NotConfigured => forall d :: !Candidate(confs, name, matches, d)
      case InvalidName => false
  }

  lemma {:induction false} StringLessTransitive(a: string, b: string, c: string)
    ensures StringLess(a, b) ==> !StringLess(b, a)
    ensures !StringLess(b, a) && !StringLess(c, b) ==> !StringLess(c, a)
    decreases |a| + |b| + |c|
  {
    if a != "" && b != "" {
      StringLessTransitive(a[1..], b[1..], if c == "" then c else c[1..]);
    }
  }

  lemma {:induction false} StringLessTotal(a: string, b: string)
    requires !StringLess(a, b) && !StringLess(b, a)
    ensures a == b
  {
    if a != "" && b != "" {
      StringLessTotal(a[1..], b[1..]);
      assert a == [a[0]] + a[1..] && b == [b[0]] + b[1..];
    }
  }

  lemma {:induction false} TriedBeforeIsStrictWeak()
    ensures StrictWeakOrder(TriedBefore)
  {
    forall a, b ensures TriedBefore(a, b) ==> !TriedBefore(b, a) {
      StringLessTransitive(a.name, b.name, b.name);
    }
    forall a, b, c ensures !TriedBefore(b, a) && !TriedBefore(c, b) ==> !TriedBefore(c, a) {
      StringLessTransitive(a.name, b.name, c.name);
    }
  }

  /** Among configurations of one map the order is total, because only one catch-all can be present. */
  lemma {:induction false} TriedBeforeIsTotal(confs: map<string, Conf>, a: Conf, b: Conf)
    requires WellFormed(confs)
    requires a.name in confs && confs[a.name] == a && b.name in confs && confs[b.name] == b
    requires a != b
    ensures TriedBefore(a, b) <==> !TriedBefore(b, a)
  {
    StringLessTransitive(a.name, b.name, b.name);
    if !TriedBefore(a, b) && !TriedBefore(b, a) {
      if !IsCatchAll(a.name) && !IsCatchAll(b.name) {
        StringLessTotal(a.name, b.name);
      }
    }
  }

  /** The lookup has one answer, so it cannot depend on the order in which a map is iterated. */
  lemma {:induction false} LookupIsUnique(
    confs: map<string, Conf>, name: string, matches: Matcher, r: Lookup, q: Lookup)
    requires WellFormed(confs)
    requires IsLookup(confs, name, matches, r) && IsLookup(confs, name, matches, q)
    ensures r == q
  {
    if r.Found? && q.Found? && r != q && name !in confs {
      TriedBeforeIsTotal(confs, r.conf, q.conf);
    }
  }

  /** The configurations with a regular expression, in whatever order the map is iterated. */
  method GatherRegexps(confs: map<string, Conf>) returns (r: seq<Conf>)
    requires WellFormed(confs)
    ensures forall c :: c in r <==> c.name in confs && confs[c.name] == c && c.regexp.Some?
  {
    r := [];
    var keys := confs.Keys;
    while keys != {}
      invariant keys <= confs.Keys
      invariant forall c :: c in r ==> c.name in confs && confs[c.name] == c && c.regexp.Some?
      invariant forall k :: k in confs && k !in keys && confs[k].regexp.Some? ==> confs[k] in r
    {
      var k :| k in keys;
      keys := keys - {k};
      if confs[k].regexp.Some? {
        r := r + [confs[k]];
      }
    }
  }

  /** a comes before b in byte order: at the first difference it has the smaller byte, or it has ended. */
  predicate IsBefore(a: string, b: string) {
    exists k: nat :: k <= |a| && k < |b| && a[..k] == b[..k] && (k == |a| || a[k] < b[k])
  }

  lemma {:induction false} StringLessIff(a: string, b: string)
    ensures StringLess(a, b) <==> IsBefore(a, b)
    decreases |a|
  {
    if a == "" {
      assert b != "" ==> a[..0] == b[..0];
    } else if b != "" && a[0] == b[0] {
      StringLessIff(a[1..], b[1..]);
      BeforeRest(a, b);
    } else if b != "" && a[0] < b[0] {
      assert a[..0] == b[..0];
    }
  }

  lemma {:induction false} BeforeRest(a: string, b: string)
    requires a != "" && b != "" && a[0] == b[0]
    ensures IsBefore(a, b) <==> IsBefore(a[1..], b[1..])
  {
    if IsBefore(a, b) {
      var k: nat :| k <= |a| && k < |b| && a[..k] == b[..k] && (k == |a| || a[k] < b[k]);
      assert a[1..][..k - 1] == a[1..k] && b[1..][..k - 1] == b[1..k] && a[1..k] == a[..k][1..] &&
             b[1..k] == b[..k][1..];
    }
    if IsBefore(a[1..], b[1..]) {
      var k: nat :| k <= |a[1..]| && k < |b[1..]| && a[1..][..k] == b[1..][..k] &&
        (k == |a[1..]| || a[1..][k] < b[1..][k]);
      assert a[..k + 1] == [a[0]] + a[1..][..k] && b[..k + 1] == [b[0]] + b[1..][..k];
    }
  }

  /** The order of preference that users rely on: a catch-all, which must be called "all" or "all_others", only when
      no other expression matches, and of the others the one whose name comes first in byte order. */
  ghost predicate IsPreferred(confs: map<string, Conf>, name: string, matches: Matcher, c: Conf) {
    forall d :: Candidate(confs, name, matches, d) && d != c ==>
      && c.name !in {"all", "all_others"}
      && (d.name !in {"all", "all_others"} ==> IsBefore(c.name, d.name))
  }

  lemma {:induction false} LookupIsPreferred(confs: map<string, Conf>, name: string, matches: Matcher, r: Lookup)
    requires WellFormed(confs) && IsLookup(confs, name, matches, r) && name !in confs && r.Found?
    ensures Candidate(confs, name, matches, r.conf) && IsPreferred(confs, name, matches, r.conf)
  {
    forall d | Candidate(confs, name, matches, d) && d != r.conf
      ensures r.conf.name !in {"all", "all_others"}
      ensures d.name !in {"all", "all_others"} ==> IsBefore(r.conf.name, d.name)
    {
      assert TriedBefore(r.conf, d);
      StringLessIff(r.conf.name, d.name);
    }
  }

  /** Gathers the regular expressions, sorts them and takes the first match. */
  method FindPathConf(confs: map<string, Conf>, name: string, matches: Matcher) returns (r: Lookup)
    requires WellFormed(confs)
    ensures IsLookup(confs, name, matches, r)
    ensures name in confs ==> r == Found(confs[name])
    ensures name !in confs && r.Found? ==>
              Candidate(confs, name, matches, r.conf) && IsPreferred(confs, name, matches, r.conf)
  {
    if name in confs {
      return Found(confs[name]);
    }
    if !IsValidPathName(name) {
      return InvalidName;
    }

    var regexpPathConfs := GatherRegexps(confs);
    TriedBeforeIsStrictWeak();
    var sorted := SortSlice(regexpPathConfs, TriedBefore);
    SameElements(sorted, regexpPathConfs);

    for i := 0 to |sorted|
      invariant forall j :: 0 <= j < i ==> !matches(sorted[j].regexp.value, name)
    {
      if matches(sorted[i].regexp.value, name) {
        FirstMatchIsLeast(confs, name, matches, sorted, i);
        LookupIsPreferred(confs, name, matches, Found(sorted[i]));
        return Found(sorted[i]);
      }
    }
    return NotConfigured;
  }

  lemma {:induction false} SameElements<T>(a: seq<T>, b: seq<T>)
    requires multiset(a) == multiset(b)
    ensures forall x :: x in a <==> x in b
  {
    assert forall x :: x in a <==> x in multiset(a);
    assert forall x :: x in b <==> x in multiset(b);
  }

  lemma {:induction false} FirstMatchIsLeast(
    confs: map<string, Conf>, name: string, matches: Matcher, sorted: seq<Conf>, i: nat)
    requires WellFormed(confs) && Ordered(TriedBefore, sorted) && i < |sorted|
    requires forall c :: c in sorted <==> c.name in confs && confs[c.name] == c && c.regexp.Some?
    requires matches(sorted[i].regexp.value, name)
    requires forall j :: 0 <= j < i ==> !matches(sorted[j].regexp.value, name)
    ensures Candidate(confs, name, matches, sorted[i])
    ensures forall d :: Candidate(confs, name, matches, d) && d != sorted[i] ==> TriedBefore(sorted[i], d)
  {
    forall d | Candidate(confs, name, matches, d) && d != sorted[i] ensures TriedBefore(sorted[i], d) {
      var j :| 0 <= j < |sorted| && sorted[j] == d;
      TriedBeforeIsTotal(confs, sorted[i], d);
    }
  }

  lemma {:induction false} LeastExists(confs: map<string, Conf>, cs: set<Conf>) returns (c: Conf)
    requires WellFormed(confs) && cs != {}
    requires forall d :: d in cs ==> d.name in confs && confs[d.name] == d
    ensures c in cs && forall d :: d in cs && d != c ==> TriedBefore(c, d)
  {
    var e :| e in cs;
    var rest := cs - {e};
    if rest == {} {
      assert cs == {e};
      return e;
    }
    var l := LeastExists(confs, rest);
    TriedBeforeIsTotal(confs, l, e);
    c := if TriedBefore(l, e) then l else e;
    forall d | d in cs && d != c ensures TriedBefore(c, d) {
      if d != e && d != l {
        assert d in rest;
        if c == e {
          TriedBeforeIsTransitive(confs, e, l, d);
        }
      }
    }
  }

  lemma {:induction false} TriedBeforeIsTransitive(confs: map<string, Conf>, a: Conf, b: Conf, c: Conf)
    requires WellFormed(confs) && TriedBefore(a, b) && TriedBefore(b, c) && a != c
    requires a.name in confs && confs[a.name] == a && c.name in confs && confs[c.name] == c
    ensures TriedBefore(a, c)
  {
    TriedBeforeIsStrictWeak();
    assert !TriedBefore(b, a) && !TriedBefore(c, b);
    TriedBeforeIsTotal(confs, a, c);
  }

  lemma {:induction false} LookupExists(confs: map<string, Conf>, name: string, matches: Matcher)
    requires WellFormed(confs)
    ensures exists r :: IsLookup(confs, name, matches, r)
  {
    var r: Lookup;
    var cs := set k | k in confs && Candidate(confs, name, matches, confs[k]) :: confs[k];
    if name in confs {
      r := Found(confs[name]);
    } else if !IsValidPathName(name) {
      r := InvalidName;
    } else if cs == {} {
      r := NotConfigured;
      forall d ensures !Candidate(confs, name, matches, d) {
        assert Candidate(confs, name, matches, d) ==> d in cs;
      }
    } else {
      var c := LeastExists(confs, cs);
      r := Found(c);
      forall d | Candidate(confs, name, matches, d) && d != c ensures TriedBefore(c, d) {
        assert d in cs;
      }
    }
    assert IsLookup(confs, name, matches, r);
  }

  /** The answer of the lookup, as a function of its inputs. */
  ghost function FindConf(confs: map<string, Conf>, name: string, matches: Matcher): (r: Lookup)
    requires WellFormed(confs)
    ensures IsLookup(confs, name, matches, r)
  {
    LookupExists(confs, name, matches);
    var answer :| IsLookup(confs, name, matches, answer);
    answer
  }
}
