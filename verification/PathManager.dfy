/** The path manager: the index from names to paths, and hot reload of configurations. */
module PathManager {
  import opened Options
  import opened Config

  /** What the manager knows about the path with a given name. */
  datatype Entry = Entry(path: nat, ready: bool, confName: string)

  /** A path, as far as configurations go. Each hot reload is delivered by a goroutine of its own, so
      the pending ones may arrive in any order. The configurations that were sent to the path, and those
      that have arrived, begin with the one that it was created with. `matchedBy` is the expression whose
      submatches the path keeps as variables of its commands and its source. */
  datatype Path = Path(
    name: string, matchedBy: Option<string>,
    live: Conf, sent: seq<Conf>, arrived: seq<Conf>, pending: multiset<Conf>, closed: bool)

  /** The expression by which a configuration is found for a name, if it is not found by the name itself. */
  function Expression(conf: Conf, name: string): Option<string> {
    if conf.name == name then None else conf.regexp
  }

  /** The path runs what arrived last, and everything sent has arrived or is pending. */
  predicate HistoryFits(p: Path) {
    && p.sent != [] && p.arrived != []
    && p.live == Last(p.arrived)
    && multiset(p.sent) == multiset(p.arrived) + p.pending
  }

  function Last(confs: seq<Conf>): Conf
    requires confs != []
  {
    confs[|confs| - 1]
  }

  function Created(name: string, conf: Conf): Path {
    Path(name, Expression(conf, name), conf, [conf], [conf], multiset{}, false)
  }

  function Send(p: Path, conf: Conf): Path {
    p.(sent := p.sent + [conf], pending := p.pending + multiset{conf})
  }

  function Deliver(p: Path, conf: Conf): Path
    requires conf in p.pending
  {
    p.(live := conf, arrived := p.arrived + [conf], pending := p.pending - multiset{conf})
  }

  datatype State = State(confs: map<string, Conf>, index: map<string, Entry>, paths: map<nat, Path>)

  datatype Answer = NoSuchPath | ConfChanged | Unauthorized | Serving(path: nat)

  datatype Event =
    | ReloadConf(confs: map<string, Conf>)
    | ClosePath(path: nat)
    | PathReady(path: nat)
    | PathNotReady(path: nat)
    | Request(name: string, confToCompare: Option<Conf>, authorized: bool)
    | DeliverReload(path: nat, conf: Conf) // a path applies a configuration sent to it

  /** What a reload of all configurations does to a path that exists. */
  datatype Verdict = Remove | Keep | Update(conf: Conf)

  ghost function VerdictFor(s: State, newConfs: map<string, Conf>, name: string, matches: Matcher): Verdict
    requires WellFormed(newConfs) && name in s.index && s.index[name].confName in s.confs
  {
    var oldConf := s.confs[s.index[name].confName];
    match FindConf(newConfs, name, matches)
    case Found(c) =>
      if oldConf == c then Keep
      else if CanBeUpdated(oldConf, c) then Update(c)
      else Remove
    case _ => Remove
  }

  // the invariant of the index

  ghost predicate EntryIsRight(s: State, name: string, matches: Matcher)
    requires WellFormed(s.confs) && name in s.index
  {
    var e := s.index[name];
    && e.path in s.paths
    && s.paths[e.path].name == name && !s.paths[e.path].closed
    && e.confName in s.confs
    && FindConf(s.confs, name, matches) == Found(s.confs[e.confName])
    && s.paths[e.path].live.fixed == s.confs[e.confName].fixed
    && (forall c :: c in s.paths[e.path].pending ==> c.fixed == s.confs[e.confName].fixed)
    && HistoryFits(s.paths[e.path]) && Last(s.paths[e.path].sent) == s.confs[e.confName]
    && s.paths[e.path].matchedBy == Expression(s.paths[e.path].sent[0], name)
  }

  /** Every entry belongs to a live path of that name, records the configuration that the name resolves
      to, which is the one sent last, and agrees with it on everything that a path cannot reload, now and
      after pending reloads. The submatches that a path keeps are those of its first configuration. */
  ghost predicate IndexIsRight(s: State, matches: Matcher) {
    WellFormed(s.confs) && forall name :: name in s.index ==> EntryIsRight(s, name, matches)
  }

  ghost predicate EveryNamedConfHasPath(s: State) {
    forall name :: name in s.confs && s.confs[name].regexp.None? ==> name in s.index
  }

  /** The path object p is the one in the index under its name. */
  predicate IsCurrent(s: State, p: nat) {
    p in s.paths && s.paths[p].name in s.index && s.index[s.paths[p].name].path == p
  }

  // the events, as relations between states; the ids of new paths are not determined

  /** A surviving entry after a reload: same path, new configuration name, one more pending reload if
      the configuration has changed. */
  ghost predicate Survives(s: State, newConfs: map<string, Conf>, t: State, name: string, matches: Matcher)
    requires WellFormed(newConfs) && name in s.index && s.index[name].confName in s.confs
  {
    var e := s.index[name];
    && e.path in s.paths && e.path in t.paths && name in t.index
    && FindConf(newConfs, name, matches).Found?
    && t.index[name] == e.(confName := FindConf(newConfs, name, matches).conf.name)
    && match VerdictFor(s, newConfs, name, matches)
       case Update(c) => t.paths[e.path] == Send(s.paths[e.path], c)
       case _ => t.paths[e.path] == s.paths[e.path]
  }

  ghost predicate IsNewPath(s: State, t: State, name: string, conf: Conf) {
    && name in t.index
    && t.index[name].path !in s.paths && t.index[name].path in t.paths
    && t.index[name] == Entry(t.index[name].path, false, conf.name)
    && t.paths[t.index[name].path] == Created(name, conf)
  }

  ghost predicate IsClosed(s: State, t: State, p: nat) {
    p in s.paths && p in t.paths && t.paths[p] == s.paths[p].(closed := true)
  }

  ghost predicate IsRemoved(s: State, newConfs: map<string, Conf>, name: string, matches: Matcher)
    requires WellFormed(newConfs)
  {
    name in s.index && s.index[name].confName in s.confs && VerdictFor(s, newConfs, name, matches) == Remove
  }

  ghost predicate Reloaded(s: State, newConfs: map<string, Conf>, t: State, matches: Matcher)
    requires WellFormed(newConfs)
    requires forall name :: name in s.index ==> s.index[name].confName in s.confs
  {
    && t.confs == newConfs
    && (forall name :: name in s.index && !IsRemoved(s, newConfs, name, matches) ==>
                         Survives(s, newConfs, t, name, matches))
    && (forall name :: name in s.index && IsRemoved(s, newConfs, name, matches) ==> IsClosed(s, t, s.index[name].path))
    && (forall name :: name in newConfs && newConfs[name].regexp.None? &&
                       (name !in s.index || IsRemoved(s, newConfs, name, matches)) ==>
                         IsNewPath(s, t, name, newConfs[name]))
    && (forall name :: name in t.index ==>
                         || (name in s.index && !IsRemoved(s, newConfs, name, matches))
                         || (name in newConfs && newConfs[name].regexp.None?))
    && (forall p :: p in s.paths ==>
        p in t.paths && t.paths[p].name == s.paths[p].name && t.paths[p].live == s.paths[p].live)
  }

  /** Reloading keeps the index right and creates the paths that should always exist. */
  lemma {:induction false} ReloadKeepsIndex(s: State, newConfs: map<string, Conf>, t: State, matches: Matcher)
    requires IndexIsRight(s, matches) && WellFormed(newConfs) && Reloaded(s, newConfs, t, matches)
    ensures IndexIsRight(t, matches) && EveryNamedConfHasPath(t)
  {
    forall name | name in t.index ensures EntryIsRight(t, name, matches) {
      if name in s.index && !IsRemoved(s, newConfs, name, matches) {
        assert EntryIsRight(s, name, matches);
        assert Survives(s, newConfs, t, name, matches);
        SurvivorIsRight(s, newConfs, t, name, matches);
      } else {
        assert IsNewPath(s, t, name, newConfs[name]);
      }
    }
    forall name | name in t.confs && t.confs[name].regexp.None? ensures name in t.index {
      if name in s.index && !IsRemoved(s, newConfs, name, matches) {
        assert Survives(s, newConfs, t, name, matches);
      } else {
        assert IsNewPath(s, t, name, newConfs[name]);
      }
    }
  }

  lemma {:induction false} SurvivorIsRight(
    s: State, newConfs: map<string, Conf>, t: State, name: string, matches: Matcher)
    requires WellFormed(s.confs) && WellFormed(newConfs) && t.confs == newConfs
    requires name in s.index && EntryIsRight(s, name, matches)
    requires VerdictFor(s, newConfs, name, matches) != Remove && Survives(s, newConfs, t, name, matches)
    ensures EntryIsRight(t, name, matches)
  {
    var e := s.index[name];
    var found := FindConf(newConfs, name, matches);
    var c := found.conf;
    assert IsLookup(newConfs, name, matches, found);
    assert c.fixed == s.confs[e.confName].fixed;
    assert c.name in newConfs && newConfs[c.name] == c;
  }

  // which paths a reload keeps

  /** The name still resolves to a configuration, and that has the same fixed part as the recorded one. */
  ghost predicate CanStay(s: State, newConfs: map<string, Conf>, name: string, matches: Matcher)
    requires WellFormed(newConfs) && name in s.index && s.index[name].confName in s.confs
  {
    match FindConf(newConfs, name, matches)
    case Found(c) => c.fixed == s.confs[s.index[name].confName].fixed
    case _ => false
  }

  /** The name keeps its path, which goes on as it is, or is sent the new configuration once if that differs. */
  ghost predicate Stays(s: State, newConfs: map<string, Conf>, t: State, name: string, matches: Matcher)
    requires WellFormed(newConfs) && name in s.index && s.index[name].confName in s.confs
  {
    var p, oldConf := s.index[name].path, s.confs[s.index[name].confName];
    && name in t.index && t.index[name].path == p && t.index[name].ready == s.index[name].ready
    && p in s.paths && p in t.paths && !t.paths[p].closed
    && match FindConf(newConfs, name, matches)
       case Found(c) =>
         && t.index[name].confName == c.name
         && t.paths[p].sent == s.paths[p].sent + (if c == oldConf then [] else [c])
         && t.paths[p].pending == s.paths[p].pending + (if c == oldConf then multiset{} else multiset{c})
         && t.paths[p].live == s.paths[p].live && t.paths[p].arrived == s.paths[p].arrived
       case _ => false
  }

  /** The path of the name is closed, and if the name is still there, it has another path, which is new. */
  ghost predicate Goes(s: State, t: State, name: string)
    requires name in s.index
  {
    var p := s.index[name].path;
    && p in t.paths && t.paths[p].closed
    && (name in t.index ==> t.index[name].path !in s.paths)
  }

  ghost predicate StaysIff(s: State, newConfs: map<string, Conf>, t: State, name: string, matches: Matcher)
    requires WellFormed(newConfs) && name in s.index && s.index[name].confName in s.confs
  {
    if CanStay(s, newConfs, name, matches) then Stays(s, newConfs, t, name, matches) else Goes(s, t, name)
  }

  /** A reload keeps the path of a name, with its publisher and readers, if and only if the name still resolves to a
      configuration with the same fixed part; every other path in the index is closed. */
  lemma {:induction false} ReloadKeepsPathIff(
    s: State, newConfs: map<string, Conf>, t: State, name: string, matches: Matcher)
    requires IndexIsRight(s, matches) && WellFormed(newConfs) && name in s.index
    requires s.index[name].confName in s.confs
    requires forall n :: n in s.index ==> s.index[n].confName in s.confs
    requires Reloaded(s, newConfs, t, matches)
    ensures StaysIff(s, newConfs, t, name, matches)
  {
    assert EntryIsRight(s, name, matches);
    CanStayIff(s, newConfs, name, matches);
    if CanStay(s, newConfs, name, matches) {
      assert Survives(s, newConfs, t, name, matches);
      SurvivorStays(s, newConfs, t, name, matches);
    } else {
      assert IsClosed(s, t, s.index[name].path);
      if name in t.index {
        assert IsNewPath(s, t, name, newConfs[name]);
      }
    }
  }

  lemma {:induction false} CanStayIff(s: State, newConfs: map<string, Conf>, name: string, matches: Matcher)
    requires WellFormed(s.confs) && WellFormed(newConfs) && name in s.index && EntryIsRight(s, name, matches)
    ensures CanStay(s, newConfs, name, matches) <==> !IsRemoved(s, newConfs, name, matches)
  {
  }

  lemma {:induction false} SurvivorStays(
    s: State, newConfs: map<string, Conf>, t: State, name: string, matches: Matcher)
    requires WellFormed(s.confs) && WellFormed(newConfs) && name in s.index && EntryIsRight(s, name, matches)
    requires Survives(s, newConfs, t, name, matches) && CanStay(s, newConfs, name, matches)
    ensures Stays(s, newConfs, t, name, matches)
  {
    var p := s.paths[s.index[name].path];
    assert p.sent + [] == p.sent && p.pending + multiset{} == p.pending;
  }

  /** A path in the index keeps the submatches of the expression by which its first configuration was found; it has none
      if that was found by its own name, which for a catch-all can be that of the path. */
  lemma {:induction false} SubmatchesAreOfFirst(s: State, name: string, matches: Matcher)
    requires IndexIsRight(s, matches) && name in s.index
    ensures var p := s.index[name].path;
            && p in s.paths && s.paths[p].sent != []
            && var first := s.paths[p].sent[0];
               if first.name == name then s.paths[p].matchedBy.None? else s.paths[p].matchedBy == first.regexp
  {
    assert EntryIsRight(s, name, matches);
  }

  /** The submatches that a path keeps are those of the configuration that the index records for it. */
  predicate MatchesAreCurrent(s: State, name: string) {
    && name in s.index && s.index[name].path in s.paths && s.index[name].confName in s.confs
    && s.paths[s.index[name].path].matchedBy == Expression(s.confs[s.index[name].confName], name)
  }

  lemma {:induction false} SurvivorMatchesIff(
    s: State, newConfs: map<string, Conf>, t: State, name: string, matches: Matcher)
    requires WellFormed(s.confs) && WellFormed(newConfs) && t.confs == newConfs
    requires name in s.index && EntryIsRight(s, name, matches)
    requires VerdictFor(s, newConfs, name, matches) != Remove && Survives(s, newConfs, t, name, matches)
    ensures t.index[name].confName in t.confs
    ensures MatchesAreCurrent(s, name) ==>
              (MatchesAreCurrent(t, name) <==>
               Expression(t.confs[t.index[name].confName], name) == Expression(s.confs[s.index[name].confName], name))
  {
    SurvivorIsRight(s, newConfs, t, name, matches);
  }

  /** A path that stays keeps current submatches if and only if the new configuration is found by the same
      expression as the old one; a path that is new has them. */
  lemma {:induction false} ReloadKeepsMatchesIff(
    s: State, newConfs: map<string, Conf>, t: State, name: string, matches: Matcher)
    requires IndexIsRight(s, matches) && WellFormed(newConfs) && Reloaded(s, newConfs, t, matches) && name in t.index
    ensures if name in s.index && !IsRemoved(s, newConfs, name, matches)
            then MatchesAreCurrent(s, name) ==>
                   (MatchesAreCurrent(t, name) <==>
                    Expression(t.confs[t.index[name].confName], name) ==
                      Expression(s.confs[s.index[name].confName], name))
            else MatchesAreCurrent(t, name)
  {
    if name in s.index && !IsRemoved(s, newConfs, name, matches) {
      assert EntryIsRight(s, name, matches);
      assert Survives(s, newConfs, t, name, matches);
      SurvivorMatchesIff(s, newConfs, t, name, matches);
    } else {
      assert IsNewPath(s, t, name, newConfs[name]);
    }
  }

  /** How far the first loop of a reload has come: `todo` holds the names it has not looked at. */
  ghost predicate Processed(s: State, newConfs: map<string, Conf>, t: State, todo: set<string>, matches: Matcher)
    requires WellFormed(newConfs) && IndexIsRight(s, matches)
  {
    && t.confs == s.confs && t.index.Keys <= s.index.Keys && t.paths.Keys == s.paths.Keys
    && (forall name :: name in todo ==> name in s.index && Untouched(s, t, name))
    && (forall name :: name in s.index && name !in todo ==> Settled(s, newConfs, t, name, matches))
    && (forall p :: p in s.paths ==> t.paths[p].name == s.paths[p].name && t.paths[p].live == s.paths[p].live)
  }

  ghost predicate Untouched(s: State, t: State, name: string)
    requires name in s.index
  {
    var p := s.index[name].path;
    name in t.index && t.index[name] == s.index[name] && p in s.paths && p in t.paths && t.paths[p] == s.paths[p]
  }

  ghost predicate Settled(s: State, newConfs: map<string, Conf>, t: State, name: string, matches: Matcher)
    requires WellFormed(newConfs) && name in s.index
  {
    s.index[name].confName in s.confs &&
    if IsRemoved(s, newConfs, name, matches) then name !in t.index && IsClosed(s, t, s.index[name].path)
    else Survives(s, newConfs, t, name, matches)
  }

  /** What the second loop of a reload adds. */
  ghost predicate CreatedNamed(u: State, confs: map<string, Conf>, t: State) {
    && (forall name :: name in u.index ==> name in t.index && t.index[name] == u.index[name])
    && (forall name :: name in confs && confs[name].regexp.None? && name !in u.index ==>
        IsNewPath(u, t, name, confs[name]))
    && (forall name :: name in t.index && name !in u.index ==> name in confs && confs[name].regexp.None?)
    && (forall p :: p in u.paths ==> p in t.paths && t.paths[p] == u.paths[p])
  }

  /** The first paths, each with the configuration of its name. */
  lemma {:induction false} FirstPathsAreRight(s: State, t: State, matches: Matcher)
    requires s.index == map[] && t.confs == s.confs && WellFormed(s.confs) && CreatedNamed(s, s.confs, t)
    ensures IndexIsRight(t, matches) && EveryNamedConfHasPath(t)
  {
    forall name | name in t.index ensures EntryIsRight(t, name, matches) {
      var c := s.confs[name];
      assert IsNewPath(s, t, name, c);
      assert IsLookup(s.confs, name, matches, Found(c));
    }
    forall name | name in t.confs && t.confs[name].regexp.None? ensures name in t.index {
      assert IsNewPath(s, t, name, s.confs[name]);
    }
  }

  lemma {:induction false} EntriesAreRight(s: State, matches: Matcher)
    requires IndexIsRight(s, matches)
    ensures forall name :: name in s.index ==> s.index[name].confName in s.confs
    ensures forall name :: name in s.index ==>
                             s.index[name].path in s.paths && s.paths[s.index[name].path].name == name
  {
    forall name | name in s.index
      ensures s.index[name].confName in s.confs && s.index[name].path in s.paths &&
              s.paths[s.index[name].path].name == name
    {
      assert EntryIsRight(s, name, matches);
    }
  }

  lemma {:induction false} UntouchedIsRight(s: State, t: State, name: string, matches: Matcher)
    requires IndexIsRight(s, matches) && t.confs == s.confs && name in s.index && Untouched(s, t, name)
    ensures EntryIsRight(t, name, matches)
  {
    assert EntryIsRight(s, name, matches);
  }

  lemma {:induction false} UntouchedSettles(
    s: State, newConfs: map<string, Conf>, t: State, u: State, name: string, matches: Matcher)
    requires WellFormed(newConfs) && t.confs == s.confs && name in s.index && Untouched(s, t, name)
    requires Settled(t, newConfs, u, name, matches)
    ensures Settled(s, newConfs, u, name, matches)
  {
  }

  /** The two states agree on the entry of a name and on the path that the name had at first. */
  ghost predicate Agree(s: State, t: State, u: State, name: string)
    requires name in s.index
  {
    var p := s.index[name].path;
    && (name in t.index <==> name in u.index) && (name in t.index && name in u.index ==> t.index[name] == u.index[name])
    && p in t.paths && p in u.paths && t.paths[p] == u.paths[p]
  }

  lemma {:induction false} SettledStays(
    s: State, newConfs: map<string, Conf>, t: State, u: State, name: string, matches: Matcher)
    requires WellFormed(newConfs) && name in s.index && Settled(s, newConfs, t, name, matches) && Agree(s, t, u, name)
    ensures Settled(s, newConfs, u, name, matches)
  {
  }

  /** A step that concerns only the entry and the path of one name. */
  ghost predicate Concerns(s: State, t: State, u: State, name: string)
    requires name in s.index
  {
    && u.confs == t.confs && u.paths.Keys == t.paths.Keys && u.index.Keys <= t.index.Keys
    && (forall n :: n in t.index && n != name ==> n in u.index && u.index[n] == t.index[n])
    && (forall p :: p in t.paths && p != s.index[name].path ==> u.paths[p] == t.paths[p])
  }

  lemma {:induction false} OthersAgree(s: State, t: State, u: State, name: string, other: string, matches: Matcher)
    requires IndexIsRight(s, matches) && t.paths.Keys == s.paths.Keys
    requires name in s.index && other in s.index && other != name && Concerns(s, t, u, name)
    ensures Agree(s, t, u, other)
  {
    EntriesAreRight(s, matches);
  }

  lemma {:induction false} OtherStaysSettled(
    s: State, newConfs: map<string, Conf>, t: State, u: State, name: string, other: string, matches: Matcher)
    requires WellFormed(newConfs) && IndexIsRight(s, matches) && t.paths.Keys == s.paths.Keys
    requires name in s.index && other in s.index && other != name && Concerns(s, t, u, name)
    requires Settled(s, newConfs, t, other, matches)
    ensures Settled(s, newConfs, u, other, matches)
  {
    OthersAgree(s, t, u, name, other, matches);
    SettledStays(s, newConfs, t, u, other, matches);
  }

  lemma {:induction false} OthersStayUntouched(
    s: State, t: State, u: State, todo: set<string>, name: string, matches: Matcher)
    requires IndexIsRight(s, matches) && t.paths.Keys == s.paths.Keys && name in s.index && Concerns(s, t, u, name)
    requires forall n :: n in todo ==> n in s.index && Untouched(s, t, n)
    ensures forall n :: n in todo - {name} ==> n in s.index && Untouched(s, u, n)
  {
    forall n | n in todo - {name} ensures n in s.index && Untouched(s, u, n) {
      assert Untouched(s, t, n);
      OthersAgree(s, t, u, name, n, matches);
    }
  }

  lemma {:induction false} OthersStaySettled(
    s: State, newConfs: map<string, Conf>, t: State, u: State, todo: set<string>, name: string, matches: Matcher)
    requires WellFormed(newConfs) && IndexIsRight(s, matches) && t.paths.Keys == s.paths.Keys
    requires name in s.index && Concerns(s, t, u, name) && Settled(s, newConfs, u, name, matches)
    requires forall n :: n in s.index && n !in todo ==> Settled(s, newConfs, t, n, matches)
    ensures forall n :: n in s.index && n !in todo - {name} ==> Settled(s, newConfs, u, n, matches)
  {
    forall n | n in s.index && n !in todo - {name} ensures Settled(s, newConfs, u, n, matches) {
      if n != name {
        OtherStaysSettled(s, newConfs, t, u, name, n, matches);
      }
    }
  }

  /** Dealing with one name settles it and does not disturb the others. */
  lemma {:induction false} OneMoreIsSettled(
    s: State, newConfs: map<string, Conf>, t: State, u: State, todo: set<string>, name: string, matches: Matcher)
    requires WellFormed(newConfs) && IndexIsRight(s, matches)
    requires Processed(s, newConfs, t, todo, matches) && name in todo && Concerns(s, t, u, name)
    requires Settled(s, newConfs, u, name, matches)
    requires forall p :: p in s.paths ==> u.paths[p].name == s.paths[p].name && u.paths[p].live == s.paths[p].live
    ensures Processed(s, newConfs, u, todo - {name}, matches)
  {
    OthersStayUntouched(s, t, u, todo, name, matches);
    OthersStaySettled(s, newConfs, t, u, todo, name, matches);
  }

  lemma {:induction false} CreationCompletesReload(
    s: State, newConfs: map<string, Conf>, u: State, t: State, matches: Matcher)
    requires WellFormed(newConfs) && IndexIsRight(s, matches) && t.confs == newConfs
    requires Processed(s, newConfs, u, {}, matches) && CreatedNamed(u.(confs := newConfs), newConfs, t)
    ensures forall name :: name in s.index ==> s.index[name].confName in s.confs
    ensures Reloaded(s, newConfs, t, matches)
  {
    EntriesAreRight(s, matches);
    forall name | name in s.index ensures Settled(s, newConfs, u, name, matches) {
    }
    forall name | name in newConfs && newConfs[name].regexp.None? &&
                  (name !in s.index || IsRemoved(s, newConfs, name, matches))
      ensures IsNewPath(s, t, name, newConfs[name])
    {
      assert name in s.index ==> Settled(s, newConfs, u, name, matches);
      assert IsNewPath(u.(confs := newConfs), t, name, newConfs[name]);
    }
    forall name | name in s.index && !IsRemoved(s, newConfs, name, matches)
      ensures Survives(s, newConfs, t, name, matches)
    {
      assert Settled(s, newConfs, u, name, matches);
    }
    forall name | name in s.index && IsRemoved(s, newConfs, name, matches) ensures IsClosed(s, t, s.index[name].path) {
      assert Settled(s, newConfs, u, name, matches);
    }
    forall name | name in t.index
      ensures || (name in s.index && !IsRemoved(s, newConfs, name, matches))
              || (name in newConfs && newConfs[name].regexp.None?)
    {
      if name in u.index {
        assert Settled(s, newConfs, u, name, matches);
      }
    }
  }

  lemma {:induction false} DeliverFits(p: Path, conf: Conf)
    requires HistoryFits(p) && conf in p.pending
    ensures HistoryFits(Deliver(p, conf))
  {
    assert multiset{conf} + (p.pending - multiset{conf}) == p.pending;
  }

  lemma {:induction false} DeliveryKeepsIndex(s: State, p: nat, conf: Conf, matches: Matcher)
    requires IndexIsRight(s, matches) && p in s.paths && conf in s.paths[p].pending
    ensures IndexIsRight(s.(paths := s.paths[p := Deliver(s.paths[p], conf)]), matches)
  {
    var t := s.(paths := s.paths[p := Deliver(s.paths[p], conf)]);
    forall n | n in t.index ensures EntryIsRight(t, n, matches) {
      assert EntryIsRight(s, n, matches);
      if s.index[n].path == p {
        DeliverFits(s.paths[p], conf);
      }
    }
  }

  // what an event does

  /** The path closes, unless another one has taken its name. */
  function WithoutPath(s: State, p: nat): State {
    if IsCurrent(s, p) then
      s.(index := s.index - {s.paths[p].name}, paths := s.paths[p := s.paths[p].(closed := true)])
    else s
  }

  function WithReady(s: State, p: nat, ready: bool): State {
    if IsCurrent(s, p) then
      var name := s.paths[p].name;
      s.(index := s.index[name := s.index[name].(ready := ready)])
    else s
  }

  /** There is one path more. */
  ghost predicate HasOneMore(s: State, t: State, name: string, conf: Conf) {
    && IsNewPath(s, t, name, conf) && t.confs == s.confs
    && t.index == s.index[name := t.index[name]]
    && t.paths == s.paths[t.index[name].path := t.paths[t.index[name].path]]
  }

  /** A request brings a path into being if its name resolves to a configuration, the one that the author expects, and
      the author is allowed to make it. */
  ghost predicate AfterRequest(
    s: State, t: State, name: string, confToCompare: Option<Conf>, authorized: bool, matches: Matcher)
    requires WellFormed(s.confs)
  {
    match FindConf(s.confs, name, matches)
    case Found(c) =>
      if name in s.index || !authorized || (confToCompare.Some? && confToCompare.value != c) then t == s
      else HasOneMore(s, t, name, c)
    case _ => t == s
  }

  /** What an event does to the manager and its paths; one that cannot happen does nothing. */
  ghost predicate Follows(s: State, e: Event, t: State, matches: Matcher)
    requires IndexIsRight(s, matches)
  {
    match e
    case ReloadConf(newConfs) =>
      if WellFormed(newConfs) then
        && EveryNamedConfHasPath(t) && (forall name :: name in s.index ==> s.index[name].confName in s.confs)
        && Reloaded(s, newConfs, t, matches)
        && forall name :: name in s.index ==> StaysIff(s, newConfs, t, name, matches)
      else t == s
    case ClosePath(p) => t == WithoutPath(s, p)
    case PathReady(p) => t == WithReady(s, p, true)
    case PathNotReady(p) => t == WithReady(s, p, false)
    case Request(name, confToCompare, authorized) => AfterRequest(s, t, name, confToCompare, authorized, matches)
    case DeliverReload(p, conf) =>
      t == if p in s.paths && conf in s.paths[p].pending then s.(paths := s.paths[p := Deliver(s.paths[p], conf)])
        else s
  }

  /** The states before, between and after some events. */
  ghost predicate IsHistory(states: seq<State>, events: seq<Event>, matches: Matcher) {
    && |states| == |events| + 1
    && (forall i :: 0 <= i < |states| ==> IndexIsRight(states[i], matches))
    && forall i :: 0 <= i < |events| ==> Follows(states[i], events[i], states[i + 1], matches)
  }

  lemma {:induction false} HistoryGrows(states: seq<State>, events: seq<Event>, n: nat, t: State, matches: Matcher)
    requires n < |events| && IsHistory(states, events[..n], matches) && IndexIsRight(t, matches)
    requires Follows(states[n], events[n], t, matches)
    ensures IsHistory(states + [t], events[..n + 1], matches)
  {
    var more := states + [t];
    forall i | 0 <= i < n + 1 ensures Follows(more[i], events[..n + 1][i], more[i + 1], matches) {
      if i < n {
        assert Follows(states[i], events[..n][i], states[i + 1], matches);
      }
    }
  }

  class Manager {
    const matches: Matcher
    var confs: map<string, Conf>
    var index: map<string, Entry>
    var paths: map<nat, Path>
    var nextPath: nat

    function View(): State
      reads this
    {
      State(confs, index, paths)
    }

    ghost predicate Valid()
      reads this
    {
      IndexIsRight(View(), matches) && forall p :: p in paths ==> p < nextPath
    }

    /** Starts with one path for every configuration that is not a regular expression. */
    constructor (confs: map<string, Conf>, matches: Matcher)
      requires WellFormed(confs)
      ensures Valid() && EveryNamedConfHasPath(View()) && this.confs == confs && this.matches == matches
    {
      this.matches := matches;
      this.confs, index, paths, nextPath := confs, map[], map[], 0;
      new;
      ghost var s := View();
      CreateNamedPaths();
      FirstPathsAreRight(s, View(), matches);
    }

    method CreatePath(conf: Conf, name: string)
      requires name !in index && forall p :: p in paths ==> p < nextPath
      modifies this`index, this`paths, this`nextPath
      ensures forall p :: p in paths ==> p < nextPath
      ensures IsNewPath(old(View()), View(), name, conf)
      ensures index == old(index)[name := index[name]]
      ensures paths == old(paths)[index[name].path := paths[index[name].path]]
    {
      var p := nextPath;
      nextPath := nextPath + 1;
      paths := paths[p := Created(name, conf)];
      index := index[name := Entry(p, false, conf.name)];
    }

    method RemoveAndClosePath(p: nat)
      requires p in paths
      modifies this`index, this`paths
      ensures index == old(index) - {old(paths)[p].name}
      ensures paths == old(paths)[p := old(paths)[p].(closed := true)]
    {
      index := index - {paths[p].name};
      paths := paths[p := paths[p].(closed := true)];
    }

    method SendReload(p: nat, newConf: Conf)
      requires p in paths
      modifies this`paths
      ensures paths == old(paths)[p := Send(old(paths)[p], newConf)]
    {
      paths := paths[p := Send(paths[p], newConf)];
    }

    /** Splits the names of configurations that have changed. */
    method CompareConfs(newConfs: map<string, Conf>) returns (toRecreate: set<string>, toReload: set<string>)
      ensures forall n :: n in toRecreate <==>
                            n in confs && n in newConfs && confs[n] != newConfs[n] &&
                              !CanBeUpdated(confs[n], newConfs[n])
      ensures forall n :: n in toReload <==>
                            n in confs && n in newConfs && confs[n] != newConfs[n] &&
                              CanBeUpdated(confs[n], newConfs[n])
    {
      toRecreate, toReload := {}, {};
      var names := confs.Keys;
      while names != {}
        invariant names <= confs.Keys
        invariant forall n :: n in toRecreate <==>
                                n in confs && n !in names && n in newConfs && confs[n] != newConfs[n] &&
                                !CanBeUpdated(confs[n], newConfs[n])
        invariant forall n :: n in toReload <==>
                                n in confs && n !in names && n in newConfs && confs[n] != newConfs[n] &&
                                CanBeUpdated(confs[n], newConfs[n])
      {
        var n :| n in names;
        names := names - {n};
        if n in newConfs && newConfs[n] != confs[n] {
          if CanBeUpdated(confs[n], newConfs[n]) {
            toReload := toReload + {n};
          } else {
            toRecreate := toRecreate + {n};
          }
        }
      }
    }

    /** Decides about one existing path by comparing names first and configurations afterwards. */
    method Decide(name: string, newConfs: map<string, Conf>, toRecreate: set<string>, toReload: set<string>)
      returns (found: Lookup, verdict: Verdict)
      requires WellFormed(confs) && WellFormed(newConfs)
      requires name in index && EntryIsRight(View(), name, matches)
      requires forall n :: n in toRecreate <==>
                             n in confs && n in newConfs && confs[n] != newConfs[n] &&
                               !CanBeUpdated(confs[n], newConfs[n])
      requires forall n :: n in toReload <==>
                             n in confs && n in newConfs && confs[n] != newConfs[n] &&
                               CanBeUpdated(confs[n], newConfs[n])
      ensures found == FindConf(newConfs, name, matches)
      ensures verdict == VerdictFor(View(), newConfs, name, matches)
      ensures verdict == Remove <==> !CanStay(View(), newConfs, name, matches)
      ensures verdict.Update? <==> CanStay(View(), newConfs, name, matches) && found.conf != confs[index[name].confName]
      ensures verdict.Update? ==> verdict.conf == found.conf
    {
      var confName := index[name].confName;
      found := FindPathConf(newConfs, name, matches);
      LookupIsUnique(newConfs, name, matches, found, FindConf(newConfs, name, matches));
      if !found.Found? {
        return found, Remove;
      }
      var newConf := found.conf;
      if newConf.name != confName {
        return found, if CanBeUpdated(confs[confName], newConf) then Update(newConf) else Remove;
      }
      if newConf.name in toRecreate {
        return found, Remove;
      }
      return found, if newConf.name in toReload then Update(newConf) else Keep;
    }

    /** Deals with one existing path. */
    method ReloadPath(name: string, newConfs: map<string, Conf>, toRecreate: set<string>, toReload: set<string>)
      requires WellFormed(confs) && WellFormed(newConfs)
      requires name in index && EntryIsRight(View(), name, matches)
      requires forall n :: n in toRecreate <==>
                             n in confs && n in newConfs && confs[n] != newConfs[n] &&
                               !CanBeUpdated(confs[n], newConfs[n])
      requires forall n :: n in toReload <==>
                             n in confs && n in newConfs && confs[n] != newConfs[n] &&
                               CanBeUpdated(confs[n], newConfs[n])
      modifies this`index, this`paths
      ensures Concerns(old(View()), old(View()), View(), name)
      ensures Settled(old(View()), newConfs, View(), name, matches)
      ensures forall p :: p in paths ==> paths[p].name == old(paths)[p].name && paths[p].live == old(paths)[p].live
    {
      var e := index[name];
      var found, verdict := Decide(name, newConfs, toRecreate, toReload);
      if verdict == Remove {
        RemoveAndClosePath(e.path);
      } else {
        index := index[name := e.(confName := found.conf.name)];
        if verdict.Update? {
          SendReload(e.path, verdict.conf);
        }
      }
    }

    method ReloadPaths(newConfs: map<string, Conf>)
      requires Valid() && WellFormed(newConfs)
      modifies this`index, this`paths
      ensures Processed(old(View()), newConfs, View(), {}, matches)
    {
      var toRecreate, toReload := CompareConfs(newConfs);
      ghost var s := View();
      EntriesAreRight(s, matches);
      var names := index.Keys;
      while names != {}
        invariant names <= s.index.Keys && confs == s.confs
        invariant Processed(s, newConfs, View(), names, matches)
      {
        var name :| name in names;
        ghost var t := View();
        UntouchedIsRight(s, t, name, matches);
        ReloadPath(name, newConfs, toRecreate, toReload);
        UntouchedSettles(s, newConfs, t, View(), name, matches);
        OneMoreIsSettled(s, newConfs, t, View(), names, name, matches);
        names := names - {name};
      }
    }

    method CreateNamedPaths()
      requires forall p :: p in paths ==> p < nextPath
      modifies this`index, this`paths, this`nextPath
      ensures forall p :: p in paths ==> p < nextPath
      ensures CreatedNamed(old(View()), confs, View())
    {
      var names := confs.Keys;
      while names != {}
        invariant names <= confs.Keys
        invariant forall p :: p in paths ==> p < nextPath
        invariant forall name :: name in old(index) ==> name in index && index[name] == old(index)[name]
        invariant forall name :: name in confs && confs[name].regexp.None? && name !in names && name !in old(index) ==>
                                   IsNewPath(old(View()), View(), name, confs[name])
        invariant forall name :: name in index && name !in old(index) ==>
                                   name in confs && name !in names && confs[name].regexp.None?
        invariant forall p :: p in old(paths) ==> p in paths && paths[p] == old(paths)[p]
      {
        var name :| name in names;
        names := names - {name};
        if confs[name].regexp.None? && name !in index {
          CreatePath(confs[name], name);
        }
      }
    }

    method DoReloadConf(newConfs: map<string, Conf>)
      requires Valid() && WellFormed(newConfs)
      modifies this
      ensures Valid() && EveryNamedConfHasPath(View())
      ensures Reloaded(old(View()), newConfs, View(), matches)
      ensures forall name :: name in old(index) ==>
                               old(index)[name].confName in old(confs) &&
                               StaysIff(old(View()), newConfs, View(), name, matches)
    {
      ghost var s := View();
      EntriesAreRight(s, matches);
      ReloadPaths(newConfs);
      ghost var u := View();
      confs := newConfs;
      CreateNamedPaths();
      CreationCompletesReload(s, newConfs, u, View(), matches);
      ReloadKeepsIndex(s, newConfs, View(), matches);
      forall name | name in s.index ensures StaysIff(s, newConfs, View(), name, matches) {
        ReloadKeepsPathIff(s, newConfs, View(), name, matches);
      }
    }

    /** A path is removed by its own close notification, unless another path has taken its name. */
    method DoClosePath(p: nat)
      requires Valid() && p in paths
      modifies this`index, this`paths
      ensures Valid()
      ensures View() == WithoutPath(old(View()), p)
    {
      var name := paths[p].name;
      if name !in index || index[name].path != p {
        return;
      }
      ghost var s := View();
      EntriesAreRight(s, matches);
      index := index - {name};
      paths := paths[p := paths[p].(closed := true)];
      forall n | n in index ensures EntryIsRight(View(), n, matches) {
        assert EntryIsRight(s, n, matches);
      }
    }

    method SetPathReady(p: nat, ready: bool)
      requires Valid() && p in paths
      modifies this`index
      ensures Valid()
      ensures View() == WithReady(old(View()), p, ready)
    {
      var name := paths[p].name;
      if name !in index || index[name].path != p {
        return;
      }
      ghost var s := View();
      index := index[name := index[name].(ready := ready)];
      forall n | n in index ensures EntryIsRight(View(), n, matches) {
        assert EntryIsRight(s, n, matches);
      }
    }

    /** Finds or creates the path of a describe, add-reader or add-publisher request. */
    method DoRequest(name: string, confToCompare: Option<Conf>, authorized: bool) returns (answer: Answer)
      requires Valid()
      modifies this`index, this`paths, this`nextPath
      ensures Valid()
      ensures match FindConf(confs, name, matches)
              case Found(c) =>
                if confToCompare.Some? && confToCompare.value != c then answer == ConfChanged && View() == old(View())
                else if !authorized then answer == Unauthorized && View() == old(View())
                else
                  && name in index && answer == Serving(index[name].path)
                  && (name in old(index) ==> View() == old(View()))
                  && (name !in old(index) ==>
                        && IsNewPath(old(View()), View(), name, c)
                        && index == old(index)[name := index[name]]
                        && paths == old(paths)[index[name].path := paths[index[name].path]])
              case _ => answer == NoSuchPath && View() == old(View())
    {
      var found := FindPathConf(confs, name, matches);
      LookupIsUnique(confs, name, matches, found, FindConf(confs, name, matches));
      if !found.Found? {
        return NoSuchPath;
      }
      if confToCompare.Some? && confToCompare.value != found.conf {
        return ConfChanged;
      }
      if !authorized {
        return Unauthorized;
      }
      if name !in index {
        CreateRequestedPath(found.conf, name);
      }
      return Serving(index[name].path);
    }

    method CreateRequestedPath(conf: Conf, name: string)
      requires Valid() && name !in index && FindConf(confs, name, matches) == Found(conf)
      modifies this`index, this`paths, this`nextPath
      ensures Valid() && IsNewPath(old(View()), View(), name, conf)
      ensures index == old(index)[name := index[name]]
      ensures paths == old(paths)[index[name].path := paths[index[name].path]]
    {
      ghost var s := View();
      CreatePath(conf, name);
      assert IsLookup(confs, name, matches, Found(conf));
      forall n | n in index ensures EntryIsRight(View(), n, matches) {
        if n != name {
          assert EntryIsRight(s, n, matches);
        }
      }
    }

    /** A path applies one of the configurations that were sent to it. */
    method DeliverReload(p: nat, conf: Conf)
      requires Valid() && p in paths && conf in paths[p].pending
      modifies this`paths
      ensures Valid()
      ensures paths == old(paths)[p := Deliver(old(paths)[p], conf)]
    {
      DeliveryKeepsIndex(View(), p, conf, matches);
      paths := paths[p := Deliver(paths[p], conf)];
    }

    /** Events that cannot happen in the current state are skipped. */
    method Handle(e: Event)
      requires Valid()
      modifies this
      ensures Valid() && Follows(old(View()), e, View(), matches)
    {
      EntriesAreRight(View(), matches);
      match e
      case ReloadConf(newConfs) =>
        var ok := CheckConfs(newConfs);
        if ok {
          DoReloadConf(newConfs);
        }
      case ClosePath(p) =>
        if p in paths {
          DoClosePath(p);
        }
      case PathReady(p) =>
        if p in paths {
          SetPathReady(p, true);
        }
      case PathNotReady(p) =>
        if p in paths {
          SetPathReady(p, false);
        }
      case Request(name, confToCompare, authorized) =>
        var _ := DoRequest(name, confToCompare, authorized);
      case DeliverReload(p, conf) =>
        if p in paths && conf in paths[p].pending {
          DeliverReload(p, conf);
        }
    }

    /** The part of configuration validation that the manager relies on. */
    method CheckConfs(newConfs: map<string, Conf>) returns (ok: bool)
      ensures ok <==> WellFormed(newConfs)
    {
      ok := (forall k :: k in newConfs ==> newConfs[k].name == k && newConfs[k].Valid())
            && !("all" in newConfs && "all_others" in newConfs);
    }
  }

  /** A path to which nothing is on its way has got everything that was sent to it, and runs what the index
      records for it if and only if what was sent last has arrived last. */
  ghost predicate IsUpToDateIff(s: State, name: string)
    requires name in s.index
  {
    var e := s.index[name];
    && e.path in s.paths && e.confName in s.confs && HistoryFits(s.paths[e.path])
    && var p := s.paths[e.path];
       p.pending == multiset{} ==>
         && multiset(p.arrived) == multiset(p.sent)
         && (p.live == s.confs[e.confName] <==> Last(p.arrived) == Last(p.sent))
  }

  /** The submatches of a path are current if and only if what was sent last is found by the same expression as
      what the path was created with. */
  ghost predicate AreMatchesCurrentIff(s: State, name: string)
    requires name in s.index
  {
    var e := s.index[name];
    && e.path in s.paths && e.confName in s.confs && s.paths[e.path].sent != []
    && var sent := s.paths[e.path].sent;
       MatchesAreCurrent(s, name) <==> Expression(Last(sent), name) == Expression(sent[0], name)
  }

  /** Over every sequence of events the index stays right, whatever the order in which reloads arrive. */
  method Serve(confs: map<string, Conf>, matches: Matcher, events: seq<Event>)
    returns (manager: Manager, ghost states: seq<State>)
    requires WellFormed(confs)
    ensures IsHistory(states, events, matches) && states[|events|] == manager.View()
    ensures states[0].confs == confs && EveryNamedConfHasPath(states[0])
    ensures IndexIsRight(manager.View(), matches)
    ensures forall name :: name in manager.index ==>
                             IsUpToDateIff(manager.View(), name) && AreMatchesCurrentIff(manager.View(), name)
  {
    manager := new Manager(confs, matches);
    states := [manager.View()];
    for i := 0 to |events|
      invariant fresh(manager) && manager.Valid() && manager.matches == matches
      invariant IsHistory(states, events[..i], matches) && states[i] == manager.View()
      invariant states[0].confs == confs && EveryNamedConfHasPath(states[0])
    {
      manager.Handle(events[i]);
      HistoryGrows(states, events, i, manager.View(), matches);
      states := states + [manager.View()];
    }
    assert events[..|events|] == events;
    forall name | name in manager.index
      ensures IsUpToDateIff(manager.View(), name) && AreMatchesCurrentIff(manager.View(), name)
    {
      assert EntryIsRight(manager.View(), name, matches);
    }
  }

  // hot reloads arrive in any order

  /** The path after all these have arrived. */
  function DeliverAll(p: Path, order: seq<Conf>): Path
    requires multiset(order) <= p.pending
    decreases |order|
  {
    if order == [] then p
    else
      assert order == [order[0]] + order[1..];
      DeliverAll(Deliver(p, order[0]), order[1..])
  }

  lemma {:induction false} FirstOfBag(bag: multiset<Conf>, order: seq<Conf>)
    requires order != [] && multiset(order) <= bag
    ensures order[0] in bag && multiset(order[1..]) <= bag - multiset{order[0]}
    ensures bag - multiset{order[0]} - multiset(order[1..]) == bag - multiset(order)
  {
    assert order == [order[0]] + order[1..];
  }

  lemma {:induction false} Regroup(arrived: seq<Conf>, order: seq<Conf>)
    requires order != []
    ensures (arrived + [order[0]]) + order[1..] == arrived + order
  {
  }

  lemma {:induction false} DeliverAllHistory(p: Path, order: seq<Conf>)
    requires HistoryFits(p) && multiset(order) <= p.pending
    ensures HistoryFits(DeliverAll(p, order))
    ensures var q := DeliverAll(p, order);
            q.sent == p.sent && q.arrived == p.arrived + order && q.pending == p.pending - multiset(order)
    decreases |order|
  {
    if order == [] {
      assert p.arrived + order == p.arrived;
    } else {
      var q := Deliver(p, order[0]);
      FirstOfBag(p.pending, order);
      DeliverFits(p, order[0]);
      DeliverAllHistory(q, order[1..]);
      assert DeliverAll(p, order) == DeliverAll(q, order[1..]);
      Regroup(p.arrived, order);
    }
  }

  lemma {:induction false} LastOfMore(arrived: seq<Conf>, order: seq<Conf>)
    requires order != []
    ensures Last(arrived + order) == Last(order)
  {
  }

  lemma {:induction false} BagOfTwo(a: Conf, b: Conf)
    ensures multiset([a, b]) == multiset{a, b}
  {
    assert [a, b] == [a] + [b];
  }

  /** Wherever serving requests has led to: once everything pending has arrived, in whatever order, the path
      has got each configuration sent to it once, runs the one that arrived last, and runs the one that the
      index records for it if and only if that one, sent last, arrived last. */
  lemma {:induction false} ReloadsRace(s: State, name: string, order: seq<Conf>, matches: Matcher)
    requires IndexIsRight(s, matches) && name in s.index && EntryIsRight(s, name, matches)
    requires multiset(order) == s.paths[s.index[name].path].pending
    ensures var p := DeliverAll(s.paths[s.index[name].path], order);
            && HistoryFits(p) && p.pending == multiset{} && multiset(p.arrived) == multiset(p.sent)
            && (order != [] ==> p.live == Last(order))
            && (p.live == s.confs[s.index[name].confName] <==> Last(p.arrived) == Last(p.sent))
  {
    var p := s.paths[s.index[name].path];
    DeliverAllHistory(p, order);
    if order != [] {
      LastOfMore(p.arrived, order);
    }
  }

  /** A path that is up to date and gets one reload at a time stays up to date. */
  lemma {:induction false} OneReloadAtATime(p: Path, confs: seq<Conf>)
    requires HistoryFits(p) && p.pending == multiset{} && p.live == Last(p.sent)
    ensures var q := SendAndDeliver(p, confs);
            && HistoryFits(q) && q.pending == multiset{} && q.live == Last(q.sent)
            && (confs != [] ==> q.live == Last(confs))
    decreases |confs|
  {
    if confs != [] {
      var q := Send(p, confs[0]);
      assert p.pending + multiset{confs[0]} == multiset{confs[0]};
      OneReloadAtATime(Deliver(q, confs[0]), confs[1..]);
    }
  }

  function SendAndDeliver(p: Path, confs: seq<Conf>): Path
    decreases |confs|
  {
    if confs == [] then p else SendAndDeliver(Deliver(Send(p, confs[0]), confs[0]), confs[1..])
  }

  /** Two reloads under way: the older one can arrive last, and then stays in effect. */
  lemma {:induction false} OutdatedExample(p: Path, older: Conf, newer: Conf, order: seq<Conf>)
    requires HistoryFits(p) && Last(p.sent) == newer && p.pending == multiset{older, newer} && older != newer
    requires order == [newer, older] || order == [older, newer]
    ensures multiset(order) == p.pending
    ensures DeliverAll(p, order).live == (if order == [older, newer] then Last(p.sent) else older)
  {
    BagOfTwo(order[0], order[1]);
    DeliverAllHistory(p, order);
    LastOfMore(p.arrived, order);
  }

  // submatches that are not current

  lemma {:induction false} OnlyCandidate(name: string, matches: Matcher, c: Conf)
    requires c.Valid() && IsValidPathName(name) && c.name != name
    requires c.regexp.Some? && matches(c.regexp.value, name)
    ensures WellFormed(map[c.name := c]) && FindConf(map[c.name := c], name, matches) == Found(c)
  {
    LookupIsUnique(map[c.name := c], name, matches, FindConf(map[c.name := c], name, matches), Found(c));
  }

  /** The index when a path has been created on request for the only configuration there is. */
  function OnePath(c: Conf, name: string): State {
    State(map[c.name := c], map[name := Entry(0, false, c.name)], map[0 := Created(name, c)])
  }

  /** ... and when the path has moved to another configuration. */
  function Moved(c: Conf, d: Conf, name: string): State {
    State(map[d.name := d], map[name := Entry(0, false, d.name)], map[0 := Send(Created(name, c), d)])
  }

  lemma {:induction false} OnePathIsRight(c: Conf, name: string, matches: Matcher)
    requires c.Valid() && IsValidPathName(name) && c.name != name
    requires c.regexp.Some? && matches(c.regexp.value, name)
    ensures IndexIsRight(OnePath(c, name), matches)
  {
    OnlyCandidate(name, matches, c);
  }

  /** A path that a reload moves from one expression to another goes on with the submatches of the first. */
  lemma {:induction false} StaleMatchesExample(c: Conf, d: Conf, name: string, matches: Matcher)
    requires c.Valid() && d == c.(name := d.name, regexp := d.regexp) && IsValidPathName(name)
    requires c.name != name && c.regexp.Some? && matches(c.regexp.value, name)
    requires d.name != name && d.regexp.Some? && matches(d.regexp.value, name)
    requires c.regexp != d.regexp
    ensures IndexIsRight(OnePath(c, name), matches) && MatchesAreCurrent(OnePath(c, name), name)
    ensures WellFormed(map[d.name := d]) && Reloaded(OnePath(c, name), map[d.name := d], Moved(c, d, name), matches)
    ensures !MatchesAreCurrent(Moved(c, d, name), name)
  {
    OnePathIsRight(c, name, matches);
    OnlyCandidate(name, matches, d);
    MovedByReload(c, d, name, matches);
  }

  lemma {:induction false} MovedByReload(c: Conf, d: Conf, name: string, matches: Matcher)
    requires c.name != d.name || c != d
    requires d == c.(name := d.name, regexp := d.regexp)
    requires WellFormed(map[d.name := d]) && FindConf(map[d.name := d], name, matches) == Found(d)
    requires d.regexp.Some?
    ensures Reloaded(OnePath(c, name), map[d.name := d], Moved(c, d, name), matches)
  {
    assert VerdictFor(OnePath(c, name), map[d.name := d], name, matches) == Update(d);
    assert Survives(OnePath(c, name), map[d.name := d], Moved(c, d, name), name, matches);
  }
}
