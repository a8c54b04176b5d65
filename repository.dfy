/**
 * The repository endpoint: a signed-in caller asks for a new repository
 * named `<pmc>.git` or `<pmc>-<suffix>.git`. The handler checks the name and
 * the caller's standing in the project, refuses a name whose target path is
 * taken, then creates the repository on GitHub, clones it onto the GitBox
 * host and notifies the infrastructure team.
 */
module Repository {
  import opened Common
  import opened RepoNames

  const CREATE_ACTION := "create"
  const LOGIN_MESSAGE := "You need to be logged in to access this end point"
  const INVALID_NAME_MESSAGE := "Invalid repository name specified"
  const NOT_PMC_MESSAGE := "Only (I)PMC members of this project may create repositories"
  const EXISTS_MESSAGE := "A repository by that name already exists"
  const CREATED_MESSAGE := "Repository created!"
  const GB_CLONE_EXEC := "/x1/gitbox/bin/gitbox-clone"
  const NEW_REPO_NOTIFY := "private@infra.apache.org"
  const NOTIFY_SUBJECT := "New GitBox/GitHub repository set up: "
  const GITBOX_REPOS := "https://gitbox-test.apache.org/repos/"
  const CREATED_STATUS := 201
  /** `re.match` handed `None` for a missing name */
  const TYPE_ERROR := "TypeError"
  /** `os.mkdir` on a path that is a regular file */
  const FILE_EXISTS_ERROR := "FileExistsError"

  /**
   * The posted JSON fields the handler reads; `None` is a key that is
   * absent (`private` is read as its truth value).
   */
  datatype CreateInput = CreateInput(
    action: Option<string>,
    repository: Option<string>,
    isPrivate: bool,
    title: Option<string>,
    commit: Option<string>,
    issue: Option<string>)

  /** A request that passed every check, with the defaults filled in. */
  datatype Request = Request(
    uid: string,
    reponame: string,
    pmc: string,
    isPrivate: bool,
    title: string,
    commitMail: string,
    issueMail: string)

  datatype Validation = Rejected(response: Response) | Accepted(request: Request)

  /** Where a request's repository goes: its path, the project directory of a private one, and its two URLs. */
  datatype Target = Target(path: string, pmcDir: Option<string>, gitboxUrl: string, githubUrl: string)

  /** GitHub's answer to the create call, and the clone script's exit. */
  datatype HttpReply = HttpReply(status: int, text: string)
  datatype CloneResult = CloneResult(returnCode: int, stderr: string)

  /**
   * The response and the external calls of the steps after the checks, and
   * whether the clone left the repository at the target path.
   */
  datatype Provisioning = Provisioning(response: Response, effects: seq<Effect>, cloned: bool)

  /** `indata.get(key, fallback)` */
  function WithDefault(given: Option<string>, fallback: string): (r: string)
    ensures given.Some? ==> r == given.value
    ensures given.None? ==> r == fallback
  {
    if given.Some? then given.value else fallback
  }

  function DefaultTitle(pmc: string): string { "Apache " + pmc }
  function DefaultCommitMail(pmc: string): string { "commits@" + pmc + ".apache.org" }
  function DefaultIssueMail(pmc: string): string { "dev@" + pmc + ".apache.org" }

  /**
   * Who may create a repository for `pmc`: an administrator without
   * consulting the directory, anyone else only as a listed (I)PMC member.
   */
  function Authorize(creds: Credentials, pmc: string, directory: map<string, seq<string>>): (r: Access)
    ensures r == Granted <==> creds.admin || creds.uid in PmcMembers(directory, pmc)
    ensures r != Granted ==> r.Refused?
    ensures !creds.admin && PmcMembers(directory, pmc) == [] ==> r == Refused(InvalidPrefixMessage(pmc))
    ensures !creds.admin && PmcMembers(directory, pmc) != [] && creds.uid !in PmcMembers(directory, pmc)
      ==> r == Refused(NOT_PMC_MESSAGE)
  {
    if creds.admin then Granted else DirectoryCheck(creds.uid, pmc, directory, NOT_PMC_MESSAGE)
  }

  /**
   * The checks the handler makes before touching anything, in their order:
   * sign-in, the action, the name, then the caller's standing.
   */
  function Validate(creds: Option<Credentials>, input: CreateInput, directory: map<string, seq<string>>): (r: Validation)
    ensures creds.None? ==> r == Rejected(Reply(false, LOGIN_MESSAGE))
    ensures creds.Some? && input.action != Some(CREATE_ACTION) ==> r == Rejected(NoReply)
    ensures creds.Some? && input.action == Some(CREATE_ACTION) && input.repository.None?
      ==> r == Rejected(Raised(TYPE_ERROR))
    ensures creds.Some? && input.action == Some(CREATE_ACTION) && input.repository.Some?
      && MatchCreateName(input.repository.value).None?
      ==> r == Rejected(Reply(false, INVALID_NAME_MESSAGE))
    ensures creds.Some? && input.action == Some(CREATE_ACTION) && input.repository.Some?
      && MatchCreateName(input.repository.value).Some?
      && Authorize(creds.value, MatchCreateName(input.repository.value).value, directory).Refused?
      ==> r == Rejected(Reply(false, Authorize(creds.value, MatchCreateName(input.repository.value).value, directory).message))
    ensures r.Accepted? <==>
      && creds.Some? && input.action == Some(CREATE_ACTION) && input.repository.Some?
      && MatchCreateName(input.repository.value).Some?
      && Authorize(creds.value, MatchCreateName(input.repository.value).value, directory) == Granted
    ensures r.Accepted? ==>
      var q := r.request;
      && q.uid == creds.value.uid
      && q.reponame == input.repository.value
      && MatchCreateName(q.reponame) == Some(q.pmc)
      && q.isPrivate == input.isPrivate
      && q.title == WithDefault(input.title, DefaultTitle(q.pmc))
      && q.commitMail == WithDefault(input.commit, DefaultCommitMail(q.pmc))
      && q.issueMail == WithDefault(input.issue, DefaultIssueMail(q.pmc))
    ensures r.Rejected? && r.response.Reply? ==> !r.response.okay
  {
    if creds.None? then Rejected(Reply(false, LOGIN_MESSAGE))
    else if input.action != Some(CREATE_ACTION) then Rejected(NoReply)
    else if input.repository.None? then Rejected(Raised(TYPE_ERROR))
    else
      var reponame := input.repository.value;
      match MatchCreateName(reponame)
      case None => Rejected(Reply(false, INVALID_NAME_MESSAGE))
      case Some(pmc) =>
        match Authorize(creds.value, pmc, directory)
        case Refused(message) => Rejected(Reply(false, message))
        case Granted =>
          Accepted(Request(
            creds.value.uid, reponame, pmc, input.isPrivate,
            WithDefault(input.title, DefaultTitle(pmc)),
            WithDefault(input.commit, DefaultCommitMail(pmc)),
            WithDefault(input.issue, DefaultIssueMail(pmc))))
  }

  /**
   * Where the repository of `q` lives and how it is reached. Both URLs end in
   * the repository's name; the GitBox URL sits under "asf" for a public
   * repository and under "private/<pmc>" for a private one, as the path does
   * under its root.
   */
  function Locate(config: Config, q: Request): (t: Target)
    ensures t.pmcDir.Some? <==> q.isPrivate
    ensures NoSlash(q.reponame) ==> Basename(t.githubUrl) == q.reponame && Basename(t.gitboxUrl) == q.reponame
    ensures NoSlash(q.reponame) && !q.isPrivate ==> Dirname(t.gitboxUrl) == GITBOX_REPOS + "asf"
    ensures NoSlash(q.reponame) && Component(q.pmc) && q.isPrivate ==>
      Dirname(t.gitboxUrl) == GITBOX_REPOS + "private/" + q.pmc && Basename(Dirname(t.gitboxUrl)) == q.pmc
    ensures NoSlash(q.reponame) && Component(config.githubOrg) ==>
      Dirname(t.githubUrl) == "https://github.com/" + config.githubOrg
      && Basename(Dirname(t.githubUrl)) == config.githubOrg
  {
    var site := "https://github.com/" + config.githubOrg;
    var gitboxDir := GITBOX_REPOS + (if q.isPrivate then "private/" + q.pmc else "asf");
    UrlLayout(site, gitboxDir, config, q);
    var githubUrl := site + "/" + q.reponame;
    var gitboxUrl := gitboxDir + "/" + q.reponame;
    if !q.isPrivate then
      Target(PosixJoin(config.publicRoot, q.reponame), None, gitboxUrl, githubUrl)
    else
      var pmcDir := PosixJoin(config.privateRoot, q.pmc);
      Target(PosixJoin(pmcDir, q.reponame), Some(pmcDir), gitboxUrl, githubUrl)
  }

  /** The split facts `Locate` states, for its two URLs. */
  lemma UrlLayout(site: string, gitboxDir: string, config: Config, q: Request)
    requires site == "https://github.com/" + config.githubOrg
    requires gitboxDir == GITBOX_REPOS + (if q.isPrivate then "private/" + q.pmc else "asf")
    ensures NoSlash(q.reponame) ==>
      Basename(site + "/" + q.reponame) == q.reponame && Basename(gitboxDir + "/" + q.reponame) == q.reponame
    ensures NoSlash(q.reponame) && !q.isPrivate ==> Dirname(gitboxDir + "/" + q.reponame) == gitboxDir
    ensures NoSlash(q.reponame) && Component(q.pmc) && q.isPrivate ==>
      Dirname(gitboxDir + "/" + q.reponame) == gitboxDir && Basename(gitboxDir) == q.pmc
    ensures NoSlash(q.reponame) && Component(config.githubOrg) ==>
      Dirname(site + "/" + q.reponame) == site && Basename(site) == config.githubOrg
  {
    if NoSlash(q.reponame) {
      AppendedName(site, q.reponame);
      if !q.isPrivate {
        assert gitboxDir[|gitboxDir| - 1] == 'f';
        AppendedName(gitboxDir, q.reponame);
      } else if Component(q.pmc) {
        assert gitboxDir[|gitboxDir| - 1] == q.pmc[|q.pmc| - 1];
        AppendedName(gitboxDir, q.reponame);
        assert gitboxDir == (GITBOX_REPOS + "private") + "/" + q.pmc;
        AppendedName(GITBOX_REPOS + "private", q.pmc);
      } else {
        AppendedName(gitboxDir, q.reponame);
      }
      if Component(config.githubOrg) {
        assert site[|site| - 1] == config.githubOrg[|config.githubOrg| - 1];
        assert site == "https://github.com" + "/" + config.githubOrg;
        AppendedName("https://github.com", config.githubOrg);
      }
    }
  }

  /** A repository root that is a non-empty path without a trailing separator. */
  predicate WellFormedRoot(dir: string)
  {
    dir != [] && dir[|dir| - 1] != '/'
  }

  /**
   * An accepted name lands exactly one level below its root: a public
   * repository directly in the public root, a private one in the directory
   * named after its project directly in the private root.
   */
  lemma LocateLayout(config: Config, q: Request)
    requires MatchCreateName(q.reponame) == Some(q.pmc)
    requires WellFormedRoot(config.publicRoot) && WellFormedRoot(config.privateRoot)
    ensures var t := Locate(config, q);
      && Basename(t.path) == q.reponame
      && (!q.isPrivate ==> t.pmcDir.None? && Dirname(t.path) == config.publicRoot)
      && (q.isPrivate ==>
            && t.pmcDir.Some? && Dirname(t.path) == t.pmcDir.value
            && Basename(t.pmcDir.value) == q.pmc && Dirname(t.pmcDir.value) == config.privateRoot)
  {
    CreateNameIsComponent(q.reponame);
    if q.isPrivate {
      JoinSplits(config.privateRoot, q.pmc);
      var pmcDir := PosixJoin(config.privateRoot, q.pmc);
      JoinSplits(pmcDir, q.reponame);
    } else {
      JoinSplits(config.publicRoot, q.reponame);
    }
  }

  /** The project directory that has to be made first, if any. */
  function NewDirs(t: Target, dirs: set<string>): set<string>
  {
    if t.pmcDir.Some? && t.pmcDir.value !in dirs then {t.pmcDir.value} else {}
  }

  /** The project directory is missing as a directory but taken by a regular file. */
  predicate MkdirClash(t: Target, dirs: set<string>, files: map<string, string>)
  {
    t.pmcDir.Some? && t.pmcDir.value !in dirs && t.pmcDir.value in files
  }

  /**
   * The body of `create_repo`'s POST to GitHub: the repository is made in the
   * configured organisation under the requested name, described by the
   * title, with the project's site as its home page, private exactly when
   * asked, and with issues, projects and wiki switched off.
   */
  function CreateRepoCall(config: Config, q: Request): (r: CreateRepoRequest)
    ensures r.url == "https://api.github.com/orgs/" + config.githubOrg + "/repos"
    ensures r.name == q.reponame && r.description == q.title && r.isPrivate == q.isPrivate
    ensures r.homepage == "https://" + q.pmc + ".apache.org/"
    ensures !r.hasIssues && !r.hasProjects && !r.hasWiki
  {
    CreateRepoRequest(
      "https://api.github.com/orgs/" + config.githubOrg + "/repos",
      q.reponame, q.title, "https://" + q.pmc + ".apache.org/", q.isPrivate,
      false, false, false)
  }

  /** The arguments handed to the clone script. */
  function CloneArgs(config: Config, q: Request, t: Target): seq<string>
  {
    ["-c", q.commitMail, "-d", q.title, "git@github.com:" + config.githubOrg + "/" + q.reponame, t.path]
  }

  /**
   * Every step acts on the same repository: the one GitHub is asked to
   * create is the one cloned, into the path the request locates, and the one
   * both URLs name, and it is private on GitHub exactly when it goes below
   * the private root.
   * Every accepted request has such names (`RepoNames.CreateNameIsComponent`).
   */
  lemma OneRepository(config: Config, q: Request)
    requires Component(q.reponame) && Component(q.pmc)
    requires WellFormedRoot(config.publicRoot) && WellFormedRoot(config.privateRoot)
    ensures var t := Locate(config, q);
      var args := CloneArgs(config, q, t);
      && CreateRepoCall(config, q).name == q.reponame
      && Basename(t.path) == q.reponame && Basename(t.githubUrl) == q.reponame
      && Basename(t.gitboxUrl) == q.reponame && Basename(args[4]) == q.reponame
      && args[5] == t.path
      && CreateRepoCall(config, q).isPrivate == t.pmcDir.Some?
  {
    var t := Locate(config, q);
    var source := "git@github.com:" + config.githubOrg + "/" + q.reponame;
    assert CloneArgs(config, q, t)[4] == source;
    AppendedName("git@github.com:" + config.githubOrg, q.reponame);
    if q.isPrivate {
      JoinSplits(config.privateRoot, q.pmc);
      JoinSplits(t.pmcDir.value, q.reponame);
    } else {
      JoinSplits(config.publicRoot, q.reponame);
    }
  }

  /**
   * The notification text: the template with the requester, the name, both
   * mail targets and both URLs filled in.
   */
  function NotifyBody(q: Request, t: Target): (body: string)
    ensures Contains(body, q.uid + "@apache.org: " + q.reponame)
    ensures Contains(body, q.commitMail) && Contains(body, q.issueMail)
    ensures Contains(body, t.gitboxUrl) && Contains(body, t.githubUrl)
  {
    var pieces := [
      "\nA new repository has been set up by ", q.uid + "@apache.org: " + q.reponame, "\n\n",
      "Commit mail target: ", q.commitMail, "\n",
      "Dev/issue mail target: ", q.issueMail, "\n\n",
      "The repository can be found at:\n",
      "GitBox: ", t.gitboxUrl, "\n",
      "GitHub: ", t.githubUrl, "\n\n",
      "With regards,\nBoxer Git Management Services\n"];
    ConcatContains(pieces, 1);
    ConcatContains(pieces, 4);
    ConcatContains(pieces, 7);
    ConcatContains(pieces, 11);
    ConcatContains(pieces, 14);
    Concat(pieces)
  }

  /** The notification goes to the infrastructure team's private list only, naming the new repository. */
  function NotifyMail(q: Request, t: Target): (m: Effect)
    ensures m.SendMail? && m.sender.None? && m.recipients == [NEW_REPO_NOTIFY]
    ensures Contains(m.subject, q.reponame)
    ensures m.body == NotifyBody(q, t)
  {
    var subject := NOTIFY_SUBJECT + q.reponame;
    assert OccursAt(subject, q.reponame, |NOTIFY_SUBJECT|);
    SendMail(None, [NEW_REPO_NOTIFY], subject, NotifyBody(q, t))
  }

  /**
   * What happens once the target path is known to be free: the GitHub
   * repository is always requested; the clone runs only if GitHub answered
   * 201, and the notification goes out only if the clone also succeeded,
   * which is then the only success.
   */
  function Provision(config: Config, q: Request, t: Target, github: HttpReply, clone: CloneResult): (p: Provisioning)
    ensures |p.effects| >= 1 && p.effects[0] == CreateRepo(CreateRepoCall(config, q))
    ensures p.response.Reply?
    ensures p.response.okay <==> github.status == CREATED_STATUS && clone.returnCode == 0
    ensures p.cloned <==> p.response.okay
    ensures p.response.okay ==>
      p == Provisioning(Reply(true, CREATED_MESSAGE),
                        [CreateRepo(CreateRepoCall(config, q)), RunClone(GB_CLONE_EXEC, CloneArgs(config, q, t)), NotifyMail(q, t)],
                        true)
    ensures github.status != CREATED_STATUS ==>
      p == Provisioning(Reply(false, github.text), [CreateRepo(CreateRepoCall(config, q))], false)
    ensures github.status == CREATED_STATUS && clone.returnCode != 0 ==>
      p == Provisioning(Reply(false, clone.stderr),
                        [CreateRepo(CreateRepoCall(config, q)), RunClone(GB_CLONE_EXEC, CloneArgs(config, q, t))], false)
    ensures (exists i :: 0 <= i < |p.effects| && p.effects[i].SendMail?) <==> p.response.okay
  {
    var create := CreateRepo(CreateRepoCall(config, q));
    if github.status != CREATED_STATUS then
      Provisioning(Reply(false, github.text), [create], false)
    else
      var run := RunClone(GB_CLONE_EXEC, CloneArgs(config, q, t));
      if clone.returnCode != 0 then
        Provisioning(Reply(false, clone.stderr), [create, run], false)
      else
        var mail := NotifyMail(q, t);
        assert [create, run, mail][2].SendMail?;
        Provisioning(Reply(true, CREATED_MESSAGE), [create, run, mail], true)
  }

  /**
   * The handler. GitHub's reply and the clone script's exit are given; the
   * directory check consults `directory` (prefix to `pmc_list`).
   */
  method Process(host: Host, config: Config, creds: Option<Credentials>, input: CreateInput,
                 directory: map<string, seq<string>>, github: HttpReply, clone: CloneResult)
    returns (r: Response)
    modifies host
    ensures var v := Validate(creds, input, directory);
      v.Rejected? ==>
        r == v.response && host.dirs == old(host.dirs) && host.files == old(host.files)
        && host.effects == old(host.effects)
    ensures var v := Validate(creds, input, directory);
      v.Accepted? ==>
        var t := Locate(config, v.request);
        && host.files == old(host.files)
        && (MkdirClash(t, old(host.dirs), old(host.files)) ==>
              r == Raised(FILE_EXISTS_ERROR) && host.dirs == old(host.dirs) && host.effects == old(host.effects))
        && (!MkdirClash(t, old(host.dirs), old(host.files)) ==>
              var made := old(host.dirs) + NewDirs(t, old(host.dirs));
              && (t.path in made || t.path in host.files ==>
                    r == Reply(false, EXISTS_MESSAGE) && host.dirs == made && host.effects == old(host.effects))
              && (t.path !in made && t.path !in host.files ==>
                    var p := Provision(config, v.request, t, github, clone);
                    && r == p.response && host.effects == old(host.effects) + p.effects
                    && host.dirs == made + (if p.cloned then {t.path} else {})))
  {
    var v := Validate(creds, input, directory);
    if v.Rejected? {
      return v.response;
    }
    r := Install(host, config, v.request, github, clone);
  }

  /**
   * The steps after the checks: make the project directory of a private
   * repository when it is missing, refuse a taken path, then provision.
   */
  method Install(host: Host, config: Config, q: Request, github: HttpReply, clone: CloneResult)
    returns (r: Response)
    modifies host`dirs, host`effects
    ensures var t := Locate(config, q);
      && (MkdirClash(t, old(host.dirs), host.files) ==>
            r == Raised(FILE_EXISTS_ERROR) && host.dirs == old(host.dirs) && host.effects == old(host.effects))
      && (!MkdirClash(t, old(host.dirs), host.files) ==>
            var made := old(host.dirs) + NewDirs(t, old(host.dirs));
            && (t.path in made || t.path in host.files ==>
                  r == Reply(false, EXISTS_MESSAGE) && host.dirs == made && host.effects == old(host.effects))
            && (t.path !in made && t.path !in host.files ==>
                  var p := Provision(config, q, t, github, clone);
                  && r == p.response && host.effects == old(host.effects) + p.effects
                  && host.dirs == made + (if p.cloned then {t.path} else {})))
  {
    var t := Locate(config, q);
    if t.pmcDir.Some? && t.pmcDir.value !in host.dirs {
      if t.pmcDir.value in host.files {
        return Raised(FILE_EXISTS_ERROR);
      }
      host.dirs := host.dirs + {t.pmcDir.value};
    }
    if host.Exists(t.path) {
      return Reply(false, EXISTS_MESSAGE);
    }
    r := Provide(host, config, q, t, github, clone);
  }

  /**
   * Creating, cloning and announcing the repository, once its path is known
   * to be free; a successful clone leaves the repository at the target path.
   */
  method Provide(host: Host, config: Config, q: Request, t: Target, github: HttpReply, clone: CloneResult)
    returns (r: Response)
    modifies host`dirs, host`effects
    ensures var p := Provision(config, q, t, github, clone);
      && r == p.response && host.effects == old(host.effects) + p.effects
      && host.dirs == old(host.dirs) + (if p.cloned then {t.path} else {})
  {
    host.effects := host.effects + [CreateRepo(CreateRepoCall(config, q))];
    if github.status != CREATED_STATUS {
      return Reply(false, github.text);
    }
    host.effects := host.effects + [RunClone(GB_CLONE_EXEC, CloneArgs(config, q, t))];
    if clone.returnCode != 0 {
      return Reply(false, clone.stderr);
    }
    host.dirs := host.dirs + {t.path};
    host.effects := host.effects + [NotifyMail(q, t)];
    r := Reply(true, CREATED_MESSAGE);
  }

  /**
   * The same create request made twice: once the first one has succeeded,
   * the repository is at its path, so the second is refused as existing.
   */
  method CreateTwice(host: Host, config: Config, creds: Option<Credentials>, input: CreateInput,
                     directory: map<string, seq<string>>, github: HttpReply, clone: CloneResult)
    returns (first: Response, second: Response)
    modifies host
    ensures first == Reply(true, CREATED_MESSAGE) ==> second == Reply(false, EXISTS_MESSAGE)
  {
    first := Process(host, config, creds, input, directory, github, clone);
    second := Process(host, config, creds, input, directory, github, clone);
  }
}
