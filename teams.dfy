/**
  The team store of backend/routes/teams.js and the save handler of
  backend/routes/rules.js: teams.json (the list of teams) and activeTeam.json
  (the active-team pointer), reloaded and rewritten by each handler.
 */
module Teams {
  import opened Wrappers
  import opened Strings
  import opened JsonValue
  import opened AssocList
  import Rules
  import Scoring

  // ---------------------------------------------------------------- looking teams up

  /** Appending a team leaves every earlier match where it was; only an id found nowhere else can find the new team. */
  lemma {:induction false} FindTeamAppend(teams: seq<Json>, t: Json, id: Json)
    ensures Scoring.FindTeam(teams + [t], id) ==
      if Scoring.FindTeam(teams, id) != -1 then Scoring.FindTeam(teams, id)
      else if Field(t, "id") == id then |teams| else -1
  {
    if teams != [] {
      assert (teams + [t])[0] == teams[0];
      assert (teams + [t])[1..] == teams[1..] + [t];
      FindTeamAppend(teams[1..], t, id);
    } else {
      assert [t][1..] == [];
    }
  }

  /** Lookups depend on the teams' ids only. */
  lemma {:induction false} FindTeamSameIds(teams: seq<Json>, updated: seq<Json>, id: Json)
    requires |teams| == |updated|
    requires forall j :: 0 <= j < |teams| ==> Field(updated[j], "id") == Field(teams[j], "id")
    ensures Scoring.FindTeam(updated, id) == Scoring.FindTeam(teams, id)
  {
  }

  // ---------------------------------------------------------------- a new team

  /** `team_${Date.now()}`, the clock reading given as a number of milliseconds. */
  function TeamId(now: nat): Json {
    JStr("team_" + NatToString(now))
  }

  /** Two creations share an id exactly when they read the same clock value: ids are not otherwise made unique. */
  lemma {:induction false} TeamIdInjective(m: nat, n: nat)
    ensures TeamId(m) == TeamId(n) <==> m == n
  {
    if TeamId(m) == TeamId(n) {
      var p := "team_";
      assert NatToString(m) == (p + NatToString(m))[|p|..];
      assert NatToString(n) == (p + NatToString(n))[|p|..];
      NatToStringInjective(m, n);
    }
  }

  const TeamKeys: seq<string> := ["id", "name", "code", "repo", "students", "rules", "createdAt"]

  /** A team record of teams.json. */
  function Team(id: Json, name: Json, code: Json, repo: Json, students: Json, rules: Json, createdAt: Json): (t: Json)
    ensures t.JObj? && Keys(t.fields) == TeamKeys
  {
    JObj([("id", id), ("name", name), ("code", code), ("repo", repo), ("students", students), ("rules", rules), ("createdAt", createdAt)])
  }

  /** Reading each field of a team record. */
  lemma {:induction false} TeamFields(id: Json, name: Json, code: Json, repo: Json, students: Json, rules: Json, createdAt: Json)
    ensures var t := Team(id, name, code, repo, students, rules, createdAt);
      && Field(t, "id") == id && Field(t, "name") == name && Field(t, "code") == code && Field(t, "repo") == repo
      && Field(t, "students") == students && Field(t, "rules") == rules && Field(t, "createdAt") == createdAt
  {
    var t := Team(id, name, code, repo, students, rules, createdAt);
    assert Distinct(t.fields) by {
      assert |TeamKeys[0]| == 2 && |TeamKeys[4]| == 8 && |TeamKeys[5]| == 5 && |TeamKeys[6]| == 9;
      assert |TeamKeys[1]| == 4 && |TeamKeys[2]| == 4 && |TeamKeys[3]| == 4;
      assert TeamKeys[1][0] == 'n' && TeamKeys[2][0] == 'c' && TeamKeys[3][0] == 'r';
      assert forall i :: 0 <= i < 7 ==> t.fields[i].0 == TeamKeys[i];
    }
    GetDistinct(t.fields, 0);
    GetDistinct(t.fields, 1);
    GetDistinct(t.fields, 2);
    GetDistinct(t.fields, 3);
    GetDistinct(t.fields, 4);
    GetDistinct(t.fields, 5);
    GetDistinct(t.fields, 6);
  }

  /**
    The team `POST /api/teams` creates from the fields of its body: the given
    name and code, the repo or `null`, the students when they are an array
    (else none), no saved rules, and the creation time.
   */
  function NewTeam(body: Json, id: Json, createdAt: string): Json {
    var students := Field(body, "students");
    Team(id, Field(body, "name"), Field(body, "code"), Or(Field(body, "repo"), JNull),
      if students.JArr? then students else JArr([]), JNull, JStr(createdAt))
  }

  /** The new team's fields read back as the body gave them, with the documented fallbacks. */
  lemma {:induction false} NewTeamFields(body: Json, id: Json, createdAt: string)
    ensures var t := NewTeam(body, id, createdAt);
      && Field(t, "id") == id
      && Field(t, "name") == Field(body, "name")
      && Field(t, "code") == Field(body, "code")
      && (Truthy(Field(body, "repo")) ==> Field(t, "repo") == Field(body, "repo"))
      && (!Truthy(Field(body, "repo")) ==> Field(t, "repo") == JNull)
      && (Field(body, "students").JArr? ==> Field(t, "students") == Field(body, "students"))
      && (!Field(body, "students").JArr? ==> Field(t, "students") == JArr([]))
      && Field(t, "rules") == JNull
      && Field(t, "createdAt") == JStr(createdAt)
  {
    var students := Field(body, "students");
    TeamFields(id, Field(body, "name"), Field(body, "code"), Or(Field(body, "repo"), JNull),
      if students.JArr? then students else JArr([]), JNull, JStr(createdAt));
  }

  /** A new team is created without rules, so it is scored with the aggregator's default weights. */
  lemma {:induction false} NewTeamUsesDefaultWeights(body: Json, id: Json, createdAt: string)
    ensures Scoring.TeamRules(NewTeam(body, id, createdAt)) == JNull
  {
    NewTeamFields(body, id, createdAt);
  }

  // ---------------------------------------------------------------- saving rules

  /**
    After settings are saved on the team `POST /api/rules` found, `GET /api/rules`
    for that team finds it again and serves those settings (and the weight table
    of their rules).
   */
  lemma {:induction false} SavedRulesServed(teams: seq<Json>, teamId: Json, activeId: Json, merged: Json)
    requires Truthy(teamId) && Scoring.FindTeam(teams, teamId) != -1 && merged.JObj?
    ensures var idx := Scoring.FindTeam(teams, teamId);
      var saved := teams[idx := Rules.WithRules(teams[idx], merged)];
      && Scoring.FindTeam(saved, teamId) == idx
      && Rules.GetRules(saved, activeId, teamId) == Rules.ServeRules(teamId, merged)
  {
    var idx := Scoring.FindTeam(teams, teamId);
    var saved := teams[idx := Rules.WithRules(teams[idx], merged)];
    assert Scoring.FindTeam(saved, teamId) == idx by {
      FindTeamSameIds(teams, saved, teamId);
    }
    assert Field(saved[idx], "rules") == merged by {
      assert teams[idx].JObj?;
    }
  }

  // ---------------------------------------------------------------- the store

  /** teams.json and the parsed activeTeam.json (`None` when it does not parse). */
  class TeamStore {
    var teams: seq<Json>
    var active: Option<Json>

    /** Fresh data files: no teams and the pointer `{id: null}`. */
    constructor()
      ensures teams == [] && active == Some(Rules.ActiveFile(JNull))
      ensures ActiveKnown()
    {
      teams := [];
      active := Some(Rules.ActiveFile(JNull));
    }

    /** `readActiveId()`. */
    function ActiveId(): Json
      reads this
    {
      Rules.ReadActiveId(active)
    }

    /** The active id, when there is one, names a stored team. */
    predicate ActiveKnown()
      reads this
    {
      Truthy(ActiveId()) ==> Scoring.FindTeam(teams, ActiveId()) != -1
    }

    /** `GET /api/teams/active`. */
    function GetActive(): (r: Json)
      reads this
      ensures Field(r, "id") == ActiveId()
    {
      assert Get([("id", ActiveId())], "id") == Some(ActiveId());
      JObj([("id", ActiveId())])
    }

    /** `POST /api/teams/active {id}`: only the id of a stored team becomes active. */
    method SetActive(body: Json) returns (r: Reply<Json>)
      modifies this
      ensures teams == old(teams)
      ensures var id := Field(body, "id");
        && (!Truthy(id) ==> r == Refused(400, "Missing id") && active == old(active))
        && (Truthy(id) && Scoring.FindTeam(teams, id) == -1 ==> r == Refused(404, "Team not found") && active == old(active))
        && (Truthy(id) && Scoring.FindTeam(teams, id) != -1 ==>
              && active == Some(Rules.ActiveFile(id))
              && ActiveId() == id
              && r == Sent(200, JObj([("ok", JBool(true)), ("id", id)])))
      ensures old(ActiveKnown()) ==> ActiveKnown()
      ensures r.Sent? ==> ActiveKnown()
    {
      var id := Field(body, "id");
      if !Truthy(id) {
        return Refused(400, "Missing id");
      }
      if Scoring.FindTeam(teams, id) == -1 {
        return Refused(404, "Team not found");
      }
      active := Some(Rules.ActiveFile(id));
      Rules.ActivePointerRoundTrip(id, "");
      r := Sent(200, JObj([("ok", JBool(true)), ("id", id)]));
    }

    /**
      `POST /api/teams`: a body with a name and a code appends a new team at the
      end and makes it active; otherwise nothing is written. `now` and
      `createdAt` are the clock's readings.
     */
    method CreateTeam(body: Json, now: nat, createdAt: string) returns (r: Reply<Json>)
      modifies this
      ensures !Truthy(Field(body, "name")) || !Truthy(Field(body, "code")) ==>
        r == Refused(400, "Missing required fields: name, code") && teams == old(teams) && active == old(active)
      ensures Truthy(Field(body, "name")) && Truthy(Field(body, "code")) ==>
        var t := NewTeam(body, TeamId(now), createdAt);
        && teams == old(teams) + [t]
        && active == Some(Rules.ActiveFile(TeamId(now)))
        && ActiveId() == TeamId(now)
        && r == Sent(201, t)
      ensures old(ActiveKnown()) ==> ActiveKnown()
      ensures r.Sent? ==> ActiveKnown()
    {
      var name, code := Field(body, "name"), Field(body, "code");
      if !Truthy(name) || !Truthy(code) {
        return Refused(400, "Missing required fields: name, code");
      }
      var id := TeamId(now);
      var t := NewTeam(body, id, createdAt);
      var before := teams;
      teams := teams + [t];
      active := Some(Rules.ActiveFile(id));
      Rules.ActivePointerRoundTrip(id, "");
      assert Scoring.FindTeam(teams, id) != -1 by {
        NewTeamFields(body, id, createdAt);
        FindTeamAppend(before, t, id);
      }
      r := Sent(201, t);
    }

    /**
      `POST /api/rules`: the body's team, else the active one, gets the merged
      settings as its `rules`; no other team and no other field of that team
      changes. The reply fails after the write when the saved rules make the
      weight table throw.
     */
    method SaveRules(body: Json) returns (r: Reply<Json>)
      modifies this
      ensures active == old(active)
      ensures var teamId := Rules.PostTeamId(body, old(ActiveId()));
        && (!Truthy(teamId) ==> r == Refused(400, "No active team and no teamId supplied.") && teams == old(teams))
        && (Truthy(teamId) && Scoring.FindTeam(old(teams), teamId) == -1 ==>
              r == Refused(404, "Team not found") && teams == old(teams))
        && (Truthy(teamId) && Scoring.FindTeam(old(teams), teamId) != -1 ==>
              var idx := Scoring.FindTeam(old(teams), teamId);
              var merged := Rules.MergedRules(Field(old(teams)[idx], "rules"), body);
              && teams == old(teams)[idx := Rules.WithRules(old(teams)[idx], merged)]
              && r == Rules.SaveReply(teamId, merged))
      ensures old(ActiveKnown()) ==> ActiveKnown()
    {
      var teamId := Rules.PostTeamId(body, ActiveId());
      if !Truthy(teamId) {
        return Refused(400, "No active team and no teamId supplied.");
      }
      var idx := Scoring.FindTeam(teams, teamId);
      if idx == -1 {
        return Refused(404, "Team not found");
      }
      var merged := Rules.MergedRules(Field(teams[idx], "rules"), body);
      var before := teams;
      teams := teams[idx := Rules.WithRules(teams[idx], merged)];
      FindTeamSameIds(before, teams, ActiveId());
      r := Rules.SaveReply(teamId, merged);
    }
  }
}
