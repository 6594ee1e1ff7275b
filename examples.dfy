/** Concrete queries against a small dataset. */
module Examples {
  import opened Wrappers
  import opened WorldCup
  import JsObject

  function Brazil(): Team
  {
    Team(5, "Brazil", false, "", "BRA", "br", "", "", "")
  }

  function Germany(): Team
  {
    Team(16, "Germany", true, "group", "GER", "de", "", "", "")
  }

  function Luzhniki(): Stadium
  {
    Stadium(1, "Luzhniki Stadium", "Moscow", "")
  }

  /** Brazil at home to Germany in stadium 1; the team ids are deliberately those of other teams. */
  function Opener(): Match
  {
    Match(1, "group", 99, 98, "Brazil", "Germany", "2", "1", None, None, "2018-06-14", 1, "finished", true, 1)
  }

  function GroupA(): Group
  {
    Group("Group A", Some("Brazil"), Some("Germany"), [Opener()])
  }

  function Sample(): Dataset
  {
    Dataset(
      [Luzhniki()],
      [Germany(), Brazil()],
      JsObject.RawObject(["a"], map["a" := GroupA()]),
      JsObject.RawObject([], map[]))
  }

  /** `home_team { name }` of the opener is "Brazil", whatever its `home_team_id` says. */
  lemma OpenerTeams()
    ensures HomeTeam(Sample(), Opener()) == Some(Brazil())
    ensures AwayTeam(Sample(), Opener()) == Some(Germany())
    ensures MatchStadium(Sample(), Opener()) == Some(Luzhniki())
  {
    MatchTeamsByName(Sample(), Opener(), Brazil());
    MatchTeamsByName(Sample(), Opener(), Germany());
  }

  /**
   * `group(name: "Group A") { matches { home_team { name } } }`: the group is
   * found and its matches are the embedded ones.
   */
  lemma GroupAQuery()
    ensures GroupByName(Sample(), Some("Group A")) == Some(GroupA())
    ensures GroupMatches(Sample(), GroupA()) == Ok([Opener()])
    ensures KnockoutByName(Sample(), Some("final")) == None
  {
    var d := Sample();
    assert Groups(d) == [GroupA()];
    GroupRoundTrip(d, GroupA());
  }

  /** `stadium(name: "nonexistent")` as written returns the first stadium; the corrected lookup returns null. */
  lemma NonexistentStadium()
    ensures StadiumAsWritten(Sample(), Some("nonexistent")) == Some(Luzhniki())
    ensures StadiumByName(Sample(), Some("nonexistent")) == None
  {
  }

  /** `team(name: "Brazil")` as written returns Germany, the first team; the corrected lookup returns Brazil. */
  lemma TeamBrazil()
    ensures TeamAsWritten(Sample(), Some("Brazil")) == Some(Germany())
    ensures TeamByName(Sample(), Some("Brazil")) == Some(Brazil())
  {
    TeamByNameRoundTrip(Sample(), Brazil());
  }

  /**
   * Two groups named "Group A": the second group's `matches` resolves to the
   * first group's list, so its own match is not served.
   */
  lemma RepeatedGroupName()
    ensures var first := Group("Group A", None, None, [Opener()]);
      var second := Group("Group A", None, None, [Opener().(id := 2)]);
      var d := Dataset([], [], JsObject.RawObject(["a", "b"], map["a" := first, "b" := second]),
        JsObject.RawObject([], map[]));
      second in Groups(d) && GroupMatches(d, second) == Ok([Opener()])
  {
    var first := Group("Group A", None, None, [Opener()]);
    var second := Group("Group A", None, None, [Opener().(id := 2)]);
    var d := Dataset([], [], JsObject.RawObject(["a", "b"], map["a" := first, "b" := second]),
      JsObject.RawObject([], map[]));
    assert Groups(d) == [first, second];
  }
}
