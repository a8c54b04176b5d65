/**
 * One pass of the background task of server/plugins/background.py: the
 * body of the `while True` loop of `run_tasks`. The process-wide data
 * (`server.data`) is a `ServerData` object whose fields the pass reassigns;
 * person records are objects whose MFA flag is changed in place and saved.
 * Every call into GitHub, the repository scanner or the directory is an
 * input of the pass; the calls with an effect outside the process
 * (`setup_teams`, `set_membership`) and the final sleep are logged as events.
 */
module Background {
  import opened Common

  /** Seconds slept after the repository listing fails, instead of the refresh rate. */
  const ABORT_DELAY: nat := 10

  /** The only team type whose membership is adjusted. */
  const COMMITTERS_TEAM: string := "committers"

  /** A committer record; `githubId` is "" when no GitHub account is linked. */
  class Person {
    const uid: string
    const githubId: string
    var githubMfa: bool
    /** Number of `save()` calls so far: each one writes the record to the database. */
    var saves: nat

    constructor (uid: string, githubId: string, githubMfa: bool)
      ensures this.uid == uid && this.githubId == githubId && this.githubMfa == githubMfa
      ensures saves == 0
    {
      this.uid := uid;
      this.githubId := githubId;
      this.githubMfa := githubMfa;
      saves := 0;
    }

    /** `person.save()` */
    method Save()
      modifies this`saves
      ensures saves == old(saves) + 1
    {
      saves := saves + 1;
    }
  }

  /**
   * A project as the projection builds it. `githubTeam` is what its
   * `public_github_team()` returns: the member list handed to GitHub.
   */
  datatype Project = Project(name: string, committers: seq<string>, githubTeam: seq<string>)

  /** A GitHub team: its slug, its type ("committers", ...) and the project it belongs to. */
  datatype Team = Team(slug: string, kind: string, project: string)

  /** A rate-limit reading: the hourly limit and how much of it is used. */
  datatype Quota = Quota(limit: nat, used: nat)

  /** What `compile_data` returns: the projects by name and the committers. */
  datatype Org = Org(projects: map<string, Project>, committers: seq<Person>)

  /** The answers the outside world gives during one pass. */
  datatype CycleInputs = CycleInputs(
    graphqlStart: Option<Quota>,          // the GraphQL reading at the start; None when get_id or a rate-limit query raises
    inventory: Option<seq<GitboxRepository>>,   // list_all; None when it raises
    compiled: Option<Org>,                // compile_data; None when it raises
    mfaStatus: map<string, bool>,         // get_mfa_status: GitHub login -> 2FA enabled
    githubTeams: seq<Team>,               // load_teams
    graphqlEnd: Quota,                    // the GraphQL reading at the end
    refreshRate: nat)                     // tasks/refresh_rate from the configuration

  /** Effects of a pass outside the process, in order. */
  datatype Event =
    | TeamsSetUp(projects: map<string, Project>)        // setup_teams(projects)
    | MembershipSet(team: Team, members: seq<string>)   // team.set_membership(members)
    | Slept(seconds: nat)                               // asyncio.sleep(seconds)

  datatype CycleOutcome =
    | Crashed                      // an uncaught exception ends the loop
    | Abandoned                    // the repository listing failed: the pass stopped early
    | Completed(graphqlUsed: nat)  // the pass ran to the end and reported this GraphQL use

  /** The person's flag differs from a value GitHub reports for their linked account. */
  predicate NeedsUpdate(githubId: string, flag: bool, mfa: map<string, bool>)
  {
    githubId != "" && githubId in mfa && flag != mfa[githubId]
  }

  /**
   * The flag a person holds after the MFA pass, given the flag before it:
   * GitHub's value when the account is linked and reported, else unchanged.
   */
  function MfaTarget(githubId: string, flag: bool, mfa: map<string, bool>): (r: bool)
    ensures githubId != "" && githubId in mfa ==> r == mfa[githubId]
    ensures githubId == "" || githubId !in mfa ==> r == flag
    ensures r != flag <==> NeedsUpdate(githubId, flag, mfa)
    ensures !NeedsUpdate(githubId, r, mfa)
  {
    if githubId != "" && githubId in mfa then mfa[githubId] else flag
  }

  /** How many times the MFA pass saves a person whose flag was `flag`. */
  function SaveCount(githubId: string, flag: bool, mfa: map<string, bool>): (n: nat)
    ensures n <= 1
    ensures n == 1 <==> MfaTarget(githubId, flag, mfa) != flag
  {
    if NeedsUpdate(githubId, flag, mfa) then 1 else 0
  }

  /**
   * A team gets its membership set only when it is a committers team whose
   * project is known and has committers: an empty committer list means the
   * directory returned nothing, not that the team should be emptied.
   */
  predicate Eligible(team: Team, projects: map<string, Project>)
  {
    team.kind == COMMITTERS_TEAM && team.project in projects && projects[team.project].committers != []
  }

  /** The `set_membership` calls issued for `teams`, in order. */
  function MembershipCalls(teams: seq<Team>, projects: map<string, Project>): (r: seq<Event>)
    ensures |r| <= |teams|
    ensures forall e :: e in r ==>
      && e.MembershipSet?
      && e.team in teams
      && Eligible(e.team, projects)
      && e.members == projects[e.team.project].githubTeam
  {
    if teams == [] then []
    else
      var last := teams[|teams| - 1];
      var before := MembershipCalls(teams[..|teams| - 1], projects);
      if Eligible(last, projects) then before + [MembershipSet(last, projects[last.project].githubTeam)]
      else before
  }

  /** Every eligible team gets a call, with its project's public team. */
  lemma {:induction false} MembershipCallsComplete(teams: seq<Team>, projects: map<string, Project>, t: Team)
    requires t in teams && Eligible(t, projects)
    ensures MembershipSet(t, projects[t.project].githubTeam) in MembershipCalls(teams, projects)
    decreases |teams|
  {
    var last := teams[|teams| - 1];
    if t != last {
      assert t in teams[..|teams| - 1] by {
        var k :| 0 <= k < |teams| && teams[k] == t;
        assert k != |teams| - 1;
        assert teams[..|teams| - 1][k] == t;
      }
      MembershipCallsComplete(teams[..|teams| - 1], projects, t);
    }
  }

  /**
   * The events of a completed pass: `setup_teams` once and first, then the
   * membership calls, then the sleep for the refresh interval.
   */
  function CycleEvents(projects: map<string, Project>, teams: seq<Team>, refreshRate: nat): (r: seq<Event>)
    ensures |r| >= 2 && r[0] == TeamsSetUp(projects) && r[|r| - 1] == Slept(refreshRate)
    ensures forall k :: 0 < k < |r| - 1 ==> r[k].MembershipSet? && r[k].team in teams
    ensures forall k :: 0 <= k < |r| && r[k].TeamsSetUp? ==> k == 0
  {
    var calls := MembershipCalls(teams, projects);
    var r := [TeamsSetUp(projects)] + calls + [Slept(refreshRate)];
    assert forall k :: 0 < k < |r| - 1 ==> r[k] == calls[k - 1] && calls[k - 1] in calls;
    r
  }

  /**
   * The GraphQL use reported at the end of a pass, from the `used` reading
   * taken at the start and the one taken at the end. When the counter grew,
   * it is the growth; otherwise (the hourly window was reset, or nothing was
   * used) it is the whole end reading.
   */
  function GraphqlUsed(startUsed: nat, endUsed: nat): (r: nat)
    ensures r <= endUsed
    ensures startUsed < endUsed ==> startUsed + r == endUsed
    ensures endUsed <= startUsed ==> r == endUsed
  {
    if startUsed < endUsed then endUsed - startUsed else endUsed
  }

  /** The committers a successful projection brings in; none when it fails. */
  function CompiledPeople(inp: CycleInputs): seq<Person>
  {
    if inp.compiled.Some? then inp.compiled.value.committers else []
  }

  /** `server.data`, written by the background task and read by the handlers. */
  class ServerData {
    var repositories: seq<GitboxRepository>
    var projects: map<string, Project>
    var people: seq<Person>
    var mfa: map<string, bool>
    var teams: seq<Team>
    /** The effects of every pass so far. */
    var events: seq<Event>

    constructor ()
      ensures repositories == [] && projects == map[] && people == [] && mfa == map[]
      ensures teams == [] && events == []
    {
      repositories, projects, people, mfa, teams, events := [], map[], [], map[], [], [];
    }

    /**
     * "Adjusting MFA status for users": every person whose linked account
     * GitHub reports gets GitHub's flag, and is saved exactly when the flag
     * changed. A person listed twice is saved at most once, since the second
     * visit finds the flag already right.
     */
    method AdjustMfa()
      modifies set p | p in people
      ensures forall p :: p in people ==>
        && p.githubMfa == MfaTarget(p.githubId, old(p.githubMfa), mfa)
        && p.saves == old(p.saves) + SaveCount(p.githubId, old(p.githubMfa), mfa)
    {
      var i := 0;
      while i < |people|
        invariant 0 <= i <= |people|
        invariant forall p :: p in people[..i] ==>
          && p.githubMfa == MfaTarget(p.githubId, old(p.githubMfa), mfa)
          && p.saves == old(p.saves) + SaveCount(p.githubId, old(p.githubMfa), mfa)
        invariant forall p :: p in people && p !in people[..i] ==>
          p.githubMfa == old(p.githubMfa) && p.saves == old(p.saves)
      {
        var person := people[i];
        if person.githubId != "" && person.githubId in mfa {
          if person.githubMfa != mfa[person.githubId] {
            person.githubMfa := mfa[person.githubId];
            person.Save();
          }
        }
        assert people[..i + 1] == people[..i] + [person];
        i := i + 1;
      }
      assert people[..i] == people;
    }

    /** "Adjusting GitHub teams according to LDAP/MFA": one call per eligible team, in order. */
    method AdjustTeams(githubTeams: seq<Team>)
      modifies this`events
      ensures events == old(events) + MembershipCalls(githubTeams, projects)
    {
      var i := 0;
      while i < |githubTeams|
        invariant 0 <= i <= |githubTeams|
        invariant events == old(events) + MembershipCalls(githubTeams[..i], projects)
      {
        var team := githubTeams[i];
        assert githubTeams[..i + 1][..i] == githubTeams[..i];
        if team.kind == COMMITTERS_TEAM && team.project in projects {
          var project := projects[team.project];
          if project.committers != [] {
            events := events + [MembershipSet(team, project.githubTeam)];
          }
        }
        i := i + 1;
      }
      assert githubTeams[..i] == githubTeams;
    }

    /**
     * "Compiling list of projects, repos and memberships": a successful
     * projection replaces projects and people; a failed one keeps both.
     */
    method ApplyProjection(compiled: Option<Org>)
      modifies this`projects, this`people
      ensures projects == (if compiled.Some? then compiled.value.projects else old(projects))
      ensures people == (if compiled.Some? then compiled.value.committers else old(people))
    {
      if compiled.Some? {
        projects := compiled.value.projects;
        people := compiled.value.committers;
      }
    }

    /**
     * The team phases: record the loaded teams, `setup_teams` over all
     * projects once, then the membership calls.
     */
    method SyncTeams(githubTeams: seq<Team>)
      modifies this`teams, this`events
      ensures teams == githubTeams
      ensures events == old(events) + [TeamsSetUp(projects)] + MembershipCalls(githubTeams, projects)
    {
      teams := githubTeams;
      events := events + [TeamsSetUp(projects)];
      AdjustTeams(githubTeams);
    }

    /**
     * The phases that touch people: store the listing, the projection and
     * the MFA pass. People the projection dropped are left as they were.
     */
    method Reproject(inventory: seq<GitboxRepository>, compiled: Option<Org>, mfaStatus: map<string, bool>)
      modifies this`repositories, this`projects, this`people, this`mfa
      modifies set p | p in people || (compiled.Some? && p in compiled.value.committers)
      ensures repositories == inventory
      ensures projects == (if compiled.Some? then compiled.value.projects else old(projects))
      ensures people == (if compiled.Some? then compiled.value.committers else old(people))
      ensures mfa == mfaStatus
      ensures forall p :: p in people ==>
        && p.githubMfa == MfaTarget(p.githubId, old(p.githubMfa), mfa)
        && p.saves == old(p.saves) + SaveCount(p.githubId, old(p.githubMfa), mfa)
      ensures forall p :: p in old(people) && p !in people ==>
        p.githubMfa == old(p.githubMfa) && p.saves == old(p.saves)
    {
      repositories := inventory;
      ApplyProjection(compiled);
      mfa := mfaStatus;
      label beforeMfa:
      assert forall p :: p in people || p in old(people) ==>
        old(p.githubMfa) == old@beforeMfa(p.githubMfa) && old(p.saves) == old@beforeMfa(p.saves);
      AdjustMfa();
    }

    /**
     * The phases after a successful repository listing: store the listing,
     * the projection, the MFA pass, the team phases and the final sleep.
     */
    method Refresh(inventory: seq<GitboxRepository>, compiled: Option<Org>, mfaStatus: map<string, bool>,
                   githubTeams: seq<Team>, refreshRate: nat)
      modifies this, set p | p in people || (compiled.Some? && p in compiled.value.committers)
      ensures repositories == inventory
      ensures projects == (if compiled.Some? then compiled.value.projects else old(projects))
      ensures people == (if compiled.Some? then compiled.value.committers else old(people))
      ensures mfa == mfaStatus && teams == githubTeams
      ensures events == old(events) + CycleEvents(projects, githubTeams, refreshRate)
      ensures forall p :: p in people ==>
        && p.githubMfa == MfaTarget(p.githubId, old(p.githubMfa), mfa)
        && p.saves == old(p.saves) + SaveCount(p.githubId, old(p.githubMfa), mfa)
      ensures forall p :: p in old(people) && p !in people ==>
        p.githubMfa == old(p.githubMfa) && p.saves == old(p.saves)
    {
      Reproject(inventory, compiled, mfaStatus);
      SyncTeams(githubTeams);
      events := events + [Slept(refreshRate)];
    }

    /**
     * One pass of the loop. A failing repository listing abandons the pass
     * before anything else is fetched or changed, and sleeps ABORT_DELAY
     * seconds. A failing projection keeps the previous projects and people.
     * A completed pass sleeps for the refresh rate.
     */
    method RunCycle(inp: CycleInputs) returns (outcome: CycleOutcome)
      modifies this, set p | p in people, set p | p in CompiledPeople(inp)
      ensures outcome.Completed? <==> inp.graphqlStart.Some? && inp.inventory.Some?
      ensures outcome.Crashed? <==> inp.graphqlStart.None?
      ensures !outcome.Completed? ==>
        && repositories == old(repositories) && projects == old(projects) && people == old(people)
        && mfa == old(mfa) && teams == old(teams)
        && (forall p :: p in old(people) || p in CompiledPeople(inp) ==>
              p.githubMfa == old(p.githubMfa) && p.saves == old(p.saves))
      ensures outcome.Crashed? ==> events == old(events)
      ensures outcome.Abandoned? ==> events == old(events) + [Slept(ABORT_DELAY)]
      ensures outcome.Completed? ==>
        && repositories == inp.inventory.value
        && projects == (if inp.compiled.Some? then inp.compiled.value.projects else old(projects))
        && people == (if inp.compiled.Some? then inp.compiled.value.committers else old(people))
        && mfa == inp.mfaStatus
        && teams == inp.githubTeams
        && events == old(events) + CycleEvents(projects, inp.githubTeams, inp.refreshRate)
        && outcome.graphqlUsed == GraphqlUsed(inp.graphqlStart.value.used, inp.graphqlEnd.used)
        && (forall p :: p in people ==>
              && p.githubMfa == MfaTarget(p.githubId, old(p.githubMfa), mfa)
              && p.saves == old(p.saves) + SaveCount(p.githubId, old(p.githubMfa), mfa))
        && (forall p :: p in old(people) && p !in people ==>
              p.githubMfa == old(p.githubMfa) && p.saves == old(p.saves))
    {
      if inp.graphqlStart.None? {
        return Crashed;
      }
      var used := inp.graphqlStart.value.used;

      if inp.inventory.None? {
        events := events + [Slept(ABORT_DELAY)];
        return Abandoned;
      }
      Refresh(inp.inventory.value, inp.compiled, inp.mfaStatus, inp.githubTeams, inp.refreshRate);
      outcome := Completed(GraphqlUsed(used, inp.graphqlEnd.used));
    }
  }
}
