/**
 * The resolvers of the World Cup GraphQL server: read-only lookups over a
 * dataset that is loaded once and never changed.
 */
module WorldCup {
  import opened Wrappers
  import opened ArrayFind
  import JsObject

  /** A stadium; `latitude` and `longitude` are floats and are not modelled. */
  datatype Stadium = Stadium(id: int, name: string, city: string, image: string)

  datatype Team = Team(
    id: int,
    name: string,
    eliminated: bool,
    eliminatedAtWhichStage: string,
    fifaCode: string,
    iso2: string,
    flag: string,
    emoji: string,
    emojiString: string)

  /**
   * A match. `homeTeam` and `awayTeam` are team names; the numeric
   * `homeTeamId` and `awayTeamId` are carried but never used to resolve a team.
   * The JSON field `type` is `matchType` here.
   */
  datatype Match = Match(
    id: int,
    matchType: string,
    homeTeamId: int,
    awayTeamId: int,
    homeTeam: string,
    awayTeam: string,
    homeScore: string,
    awayScore: string,
    homeScorers: Option<string>,
    awayScorers: Option<string>,
    date: string,
    stadiumId: int,
    timeElapsed: string,
    finished: bool,
    matchday: int)

  /** A group, with its matches embedded. */
  datatype Group = Group(name: string, winner: Option<string>, runnerup: Option<string>, matches: seq<Match>)

  /** A knockout stage, with its matches embedded. */
  datatype Knockout = Knockout(name: string, matches: seq<Match>)

  /** The loaded document: two arrays and two objects keyed by arbitrary strings. */
  datatype Dataset = Dataset(
    stadiums: seq<Stadium>,
    teams: seq<Team>,
    groups: JsObject.Object<Group>,
    knockout: JsObject.Object<Knockout>)

  /**
   * The error a `matches` resolver throws when its parent's name is not in the
   * collection: reading `matches` of `undefined`.
   */
  datatype ResolveError = MatchesOfUndefined

  // Dataset properties used as premises

  predicate UniqueStadiumIds(d: Dataset) { UniqueBy(d.stadiums, (s: Stadium) => s.id) }

  predicate UniqueStadiumNames(d: Dataset) { UniqueBy(d.stadiums, (s: Stadium) => s.name) }

  predicate UniqueTeamNames(d: Dataset) { UniqueBy(d.teams, (t: Team) => t.name) }

  predicate UniqueGroupNames(d: Dataset) { UniqueBy(Groups(d), (g: Group) => g.name) }

  predicate UniqueKnockoutNames(d: Dataset) { UniqueBy(Knockouts(d), (k: Knockout) => k.name) }

  // Match fields. Each `find` callback is an `===` comparison, whose boolean
  // value `find` tests for truthiness.

  /** `home_team`: the first team whose name is the match's `home_team` string. */
  function HomeTeam(d: Dataset, m: Match): (r: Option<Team>)
    ensures IsFirstMatch(d.teams, (t: Team) => t.name == m.homeTeam, r)
  {
    FindFirst(d.teams, (el: Team) => Truthy<Team>(Boolean(el.name == m.homeTeam)))
  }

  /** `away_team`: the first team whose name is the match's `away_team` string. */
  function AwayTeam(d: Dataset, m: Match): (r: Option<Team>)
    ensures IsFirstMatch(d.teams, (t: Team) => t.name == m.awayTeam, r)
  {
    FindFirst(d.teams, (el: Team) => Truthy<Team>(Boolean(el.name == m.awayTeam)))
  }

  /** `stadium_id`: the first stadium whose id is the match's `stadium_id`. */
  function MatchStadium(d: Dataset, m: Match): (r: Option<Stadium>)
    ensures IsFirstMatch(d.stadiums, (s: Stadium) => s.id == m.stadiumId, r)
  {
    FindFirst(d.stadiums, (el: Stadium) => Truthy<Stadium>(Boolean(el.id == m.stadiumId)))
  }

  // Group and Knockout fields

  /**
   * `matches` of a group: the embedded matches of the first group in the
   * collection that has the parent's name, found again by name.
   */
  function GroupMatches(d: Dataset, parent: Group): (r: Result<seq<Match>, ResolveError>)
    ensures r.Err? <==> forall i :: 0 <= i < |Groups(d)| ==> Groups(d)[i].name != parent.name
    ensures r.Ok? ==>
      exists k :: 0 <= k < |Groups(d)| && Groups(d)[k].name == parent.name &&
        Groups(d)[k].matches == r.value && forall j :: 0 <= j < k ==> Groups(d)[j].name != parent.name
  {
    match FindFirst(Groups(d), (el: Group) => Truthy<Group>(Boolean(el.name == parent.name)))
    case Some(g) => Ok(g.matches)
    case None => Err(MatchesOfUndefined)
  }

  /** `matches` of a knockout stage, found again by the parent's name. */
  function KnockoutMatches(d: Dataset, parent: Knockout): (r: Result<seq<Match>, ResolveError>)
    ensures r.Err? <==> forall i :: 0 <= i < |Knockouts(d)| ==> Knockouts(d)[i].name != parent.name
    ensures r.Ok? ==>
      exists k :: 0 <= k < |Knockouts(d)| && Knockouts(d)[k].name == parent.name &&
        Knockouts(d)[k].matches == r.value && forall j :: 0 <= j < k ==> Knockouts(d)[j].name != parent.name
  {
    match FindFirst(Knockouts(d), (el: Knockout) => Truthy<Knockout>(Boolean(el.name == parent.name)))
    case Some(k) => Ok(k.matches)
    case None => Err(MatchesOfUndefined)
  }

  // Root query fields. An omitted or null `name` argument is `None`; `===`
  // against it is false for every string.

  /** `stadiums`: the loaded array, same length and order. */
  function Stadiums(d: Dataset): (r: seq<Stadium>)
    ensures r == d.stadiums
  {
    d.stadiums
  }

  /**
   * `stadium(name)` as written: the callback returns an arrow function instead
   * of a comparison, and a function is truthy, so `find` stops at index 0.
   */
  function StadiumAsWritten(d: Dataset, name: Option<string>): (r: Option<Stadium>)
    ensures r == if d.stadiums == [] then None else Some(d.stadiums[0])
  {
    var callback := (el: Stadium) => Truthy(Function((elem: Stadium) => Some(elem.name) == name));
    FindFirstAlwaysTrue(d.stadiums, callback);
    FindFirst(d.stadiums, callback)
  }

  /** `stadium(name)` with the comparison applied: the first stadium with that name. */
  function StadiumByName(d: Dataset, name: Option<string>): (r: Option<Stadium>)
    ensures IsFirstMatch(d.stadiums, (s: Stadium) => Some(s.name) == name, r)
  {
    FindFirst(d.stadiums, (el: Stadium) => Truthy<Stadium>(Boolean(Some(el.name) == name)))
  }

  /** `teams`: the loaded array, same length and order. */
  function Teams(d: Dataset): (r: seq<Team>)
    ensures r == d.teams
  {
    d.teams
  }

  /** `team(name)` as written: the same truthy arrow function as `stadium(name)`. */
  function TeamAsWritten(d: Dataset, name: Option<string>): (r: Option<Team>)
    ensures r == if d.teams == [] then None else Some(d.teams[0])
  {
    var callback := (el: Team) => Truthy(Function((elem: Team) => Some(elem.name) == name));
    FindFirstAlwaysTrue(d.teams, callback);
    FindFirst(d.teams, callback)
  }

  /** `team(name)` with the comparison applied: the first team with that name. */
  function TeamByName(d: Dataset, name: Option<string>): (r: Option<Team>)
    ensures IsFirstMatch(d.teams, (t: Team) => Some(t.name) == name, r)
  {
    FindFirst(d.teams, (el: Team) => Truthy<Team>(Boolean(Some(el.name) == name)))
  }

  /**
   * `groups`: `Object.keys(data.groups).map(key => data.groups[key])`, one
   * group per property, in key order, covering every property.
   */
  function Groups(d: Dataset): (r: seq<Group>)
    ensures |r| == |d.groups.keys| == |d.groups.props|
    ensures forall i :: 0 <= i < |r| ==> r[i] == d.groups.props[d.groups.keys[i]]
  {
    JsObject.Values(d.groups)
  }

  /** `group(name)`: the first group, in key order, with that name. */
  function GroupByName(d: Dataset, name: Option<string>): (r: Option<Group>)
    ensures IsFirstMatch(Groups(d), (g: Group) => Some(g.name) == name, r)
  {
    FindFirst(Groups(d), (el: Group) => Truthy<Group>(Boolean(Some(el.name) == name)))
  }

  /**
   * `knockouts`: `Object.keys(data.knockout).map(key => data.knockout[key])`,
   * one stage per property, in key order, covering every property.
   */
  function Knockouts(d: Dataset): (r: seq<Knockout>)
    ensures |r| == |d.knockout.keys| == |d.knockout.props|
    ensures forall i :: 0 <= i < |r| ==> r[i] == d.knockout.props[d.knockout.keys[i]]
  {
    JsObject.Values(d.knockout)
  }

  /** `knockout(name)`: the first knockout stage, in key order, with that name. */
  function KnockoutByName(d: Dataset, name: Option<string>): (r: Option<Knockout>)
    ensures IsFirstMatch(Knockouts(d), (k: Knockout) => Some(k.name) == name, r)
  {
    FindFirst(Knockouts(d), (el: Knockout) => Truthy<Knockout>(Boolean(Some(el.name) == name)))
  }

  // Properties of the resolvers

  /**
   * `groups` and `knockouts` return one value per property of their object,
   * in key order, and every property's value is among them.
   */
  lemma ListResolvers(d: Dataset)
    ensures |Groups(d)| == |d.groups.props|
    ensures forall i :: 0 <= i < |Groups(d)| ==> Groups(d)[i] == d.groups.props[d.groups.keys[i]]
    ensures forall k :: k in d.groups.props ==> d.groups.props[k] in Groups(d)
    ensures |Knockouts(d)| == |d.knockout.props|
    ensures forall i :: 0 <= i < |Knockouts(d)| ==> Knockouts(d)[i] == d.knockout.props[d.knockout.keys[i]]
    ensures forall k :: k in d.knockout.props ==> d.knockout.props[k] in Knockouts(d)
  {
    forall k | k in d.groups.props ensures d.groups.props[k] in Groups(d) {
      JsObject.ValuesCoverProperties(d.groups, k);
    }
    forall k | k in d.knockout.props ensures d.knockout.props[k] in Knockouts(d) {
      JsObject.ValuesCoverProperties(d.knockout, k);
    }
  }

  /** Team resolution joins on names only: the numeric team ids never matter. */
  lemma TeamResolutionIgnoresIds(d: Dataset, m: Match, homeId: int, awayId: int)
    ensures HomeTeam(d, m.(homeTeamId := homeId, awayTeamId := awayId)) == HomeTeam(d, m)
    ensures AwayTeam(d, m.(homeTeamId := homeId, awayTeamId := awayId)) == AwayTeam(d, m)
  {
  }

  /** With unique team names, a match's teams are the teams so named. */
  lemma MatchTeamsByName(d: Dataset, m: Match, t: Team)
    requires UniqueTeamNames(d) && t in d.teams
    ensures t.name == m.homeTeam ==> HomeTeam(d, m) == Some(t)
    ensures t.name == m.awayTeam ==> AwayTeam(d, m) == Some(t)
  {
    var i :| 0 <= i < |d.teams| && d.teams[i] == t;
    if t.name == m.homeTeam {
      FindFirstAt(d.teams, (el: Team) => el.name == m.homeTeam, i);
    }
    if t.name == m.awayTeam {
      FindFirstAt(d.teams, (el: Team) => el.name == m.awayTeam, i);
    }
  }

  /** With unique stadium ids, a match's stadium is the stadium with its `stadium_id`. */
  lemma MatchStadiumById(d: Dataset, m: Match, s: Stadium)
    requires UniqueStadiumIds(d) && s in d.stadiums && s.id == m.stadiumId
    ensures MatchStadium(d, m) == Some(s)
  {
    var i :| 0 <= i < |d.stadiums| && d.stadiums[i] == s;
    FindFirstAt(d.stadiums, (el: Stadium) => el.id == m.stadiumId, i);
  }

  /**
   * `stadium(name)` as written and with the comparison applied agree exactly
   * when there is no stadium or the first stadium has the requested name.
   */
  lemma StadiumAsWrittenAgreesIff(d: Dataset, name: Option<string>)
    ensures StadiumAsWritten(d, name) == StadiumByName(d, name) <==>
      d.stadiums == [] || name == Some(d.stadiums[0].name)
  {
    if d.stadiums != [] && name == Some(d.stadiums[0].name) {
      FindFirstAt(d.stadiums, (el: Stadium) => Some(el.name) == name, 0);
    }
  }

  /** `stadium(name: "nonexistent")` finds a stadium whenever there is one. */
  lemma StadiumAsWrittenMatchesAnyName(d: Dataset, name: string)
    requires d.stadiums != []
    requires forall i :: 0 <= i < |d.stadiums| ==> d.stadiums[i].name != name
    ensures StadiumAsWritten(d, Some(name)) == Some(d.stadiums[0])
    ensures StadiumByName(d, Some(name)) == None
  {
  }

  /** The corrected `stadium(name)` finds every stadium by its own name when names are unique. */
  lemma StadiumByNameRoundTrip(d: Dataset, s: Stadium)
    requires UniqueStadiumNames(d) && s in d.stadiums
    ensures StadiumByName(d, Some(s.name)) == Some(s)
  {
    var i :| 0 <= i < |d.stadiums| && d.stadiums[i] == s;
    FindFirstAt(d.stadiums, (el: Stadium) => Some(el.name) == Some(s.name), i);
  }

  /**
   * `team(name)` as written and with the comparison applied agree exactly
   * when there is no team or the first team has the requested name.
   */
  lemma TeamAsWrittenAgreesIff(d: Dataset, name: Option<string>)
    ensures TeamAsWritten(d, name) == TeamByName(d, name) <==>
      d.teams == [] || name == Some(d.teams[0].name)
  {
    if d.teams != [] && name == Some(d.teams[0].name) {
      FindFirstAt(d.teams, (el: Team) => Some(el.name) == name, 0);
    }
  }

  /** The corrected `team(name)` finds every team by its own name when names are unique. */
  lemma TeamByNameRoundTrip(d: Dataset, t: Team)
    requires UniqueTeamNames(d) && t in d.teams
    ensures TeamByName(d, Some(t.name)) == Some(t)
  {
    var i :| 0 <= i < |d.teams| && d.teams[i] == t;
    FindFirstAt(d.teams, (el: Team) => Some(el.name) == Some(t.name), i);
  }

  /** `group` and `knockout` without a `name` argument find nothing. */
  lemma NoNameFindsNothing(d: Dataset)
    ensures GroupByName(d, None) == None && KnockoutByName(d, None) == None
    ensures StadiumByName(d, None) == None && TeamByName(d, None) == None
  {
  }

  /**
   * The `matches` of a group is the `matches` of what `group` returns for the
   * parent's name, and the resolver throws exactly when `group` finds nothing.
   */
  lemma GroupMatchesViaGroup(d: Dataset, parent: Group)
    ensures GroupMatches(d, parent) ==
      match GroupByName(d, Some(parent.name))
      case Some(g) => Ok(g.matches)
      case None => Err(MatchesOfUndefined)
  {
    FindFirstCongruent(Groups(d), (el: Group) => Truthy<Group>(Boolean(el.name == parent.name)),
      (el: Group) => Truthy<Group>(Boolean(Some(el.name) == Some(parent.name))));
  }

  /** The `matches` of a knockout stage is the `matches` of what `knockout` returns for its name. */
  lemma KnockoutMatchesViaKnockout(d: Dataset, parent: Knockout)
    ensures KnockoutMatches(d, parent) ==
      match KnockoutByName(d, Some(parent.name))
      case Some(k) => Ok(k.matches)
      case None => Err(MatchesOfUndefined)
  {
    FindFirstCongruent(Knockouts(d), (el: Knockout) => Truthy<Knockout>(Boolean(el.name == parent.name)),
      (el: Knockout) => Truthy<Knockout>(Boolean(Some(el.name) == Some(parent.name))));
  }

  /**
   * With unique group names, every listed group is found by its own name and
   * its `matches` resolves to its own embedded matches.
   */
  lemma GroupRoundTrip(d: Dataset, g: Group)
    requires UniqueGroupNames(d) && g in Groups(d)
    ensures GroupByName(d, Some(g.name)) == Some(g)
    ensures GroupMatches(d, g) == Ok(g.matches)
  {
    var i :| 0 <= i < |Groups(d)| && Groups(d)[i] == g;
    FindFirstAt(Groups(d), (el: Group) => Some(el.name) == Some(g.name), i);
    GroupMatchesViaGroup(d, g);
  }

  /**
   * With unique knockout names, every listed stage is found by its own name
   * and its `matches` resolves to its own embedded matches.
   */
  lemma KnockoutRoundTrip(d: Dataset, k: Knockout)
    requires UniqueKnockoutNames(d) && k in Knockouts(d)
    ensures KnockoutByName(d, Some(k.name)) == Some(k)
    ensures KnockoutMatches(d, k) == Ok(k.matches)
  {
    var i :| 0 <= i < |Knockouts(d)| && Knockouts(d)[i] == k;
    FindFirstAt(Knockouts(d), (el: Knockout) => Some(el.name) == Some(k.name), i);
    KnockoutMatchesViaKnockout(d, k);
  }

  /** A group the server itself listed never makes its `matches` resolver throw. */
  lemma ListedParentsResolve(d: Dataset, g: Group, k: Knockout)
    ensures g in Groups(d) ==> GroupMatches(d, g).Ok?
    ensures k in Knockouts(d) ==> KnockoutMatches(d, k).Ok?
  {
  }

  /**
   * With unique group names, every match embedded in a listed group is among
   * the matches its `matches` field resolves to.
   */
  lemma GroupServesItsMatches(d: Dataset, g: Group, m: Match)
    requires UniqueGroupNames(d) && g in Groups(d) && m in g.matches
    ensures GroupMatches(d, g).Ok? && m in GroupMatches(d, g).value
  {
    GroupRoundTrip(d, g);
  }

  /** In a sequence without repetitions every element occurs exactly once. */
  lemma {:induction false} OccursOnce<T>(s: seq<T>, i: nat)
    requires i < |s| && UniqueBy(s, (x: T) => x)
    ensures multiset(s)[s[i]] == 1
    decreases |s|
  {
    var t := s[1..];
    assert s == [s[0]] + t;
    assert UniqueBy(t, (x: T) => x) by {
      forall a, b | 0 <= a < |t| && 0 <= b < |t| && t[a] == t[b] ensures a == b {
        assert s[a + 1] == s[b + 1];
      }
    }
    if i == 0 {
      forall j | 0 <= j < |t| ensures t[j] != s[0] {
        assert t[j] == s[j + 1];
      }
      assert s[0] !in multiset(t);
    } else {
      OccursOnce(t, i - 1);
      assert s[0] != s[i];
    }
  }

  /**
   * With unique group names and a group whose embedded matches are distinct,
   * each of its matches occurs exactly once in its resolved `matches`.
   */
  lemma GroupMatchesExactlyOnce(d: Dataset, g: Group, i: nat)
    requires UniqueGroupNames(d) && g in Groups(d)
    requires UniqueBy(g.matches, (m: Match) => m) && i < |g.matches|
    ensures GroupMatches(d, g).Ok? && multiset(GroupMatches(d, g).value)[g.matches[i]] == 1
  {
    GroupRoundTrip(d, g);
    OccursOnce(g.matches, i);
  }
}
