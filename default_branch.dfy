/**
 * The default-branch endpoint: a signed-in caller names a repository the
 * server knows and a branch. The handler checks the caller's standing in
 * the repository's project, changes the default branch on GitHub, points
 * the GitBox copy's HEAD file at the branch and tells the project's
 * private list.
 */
module DefaultBranch {
  import opened Common
  import opened RepoNames
  import Background

  /** Members of the foundation may act on these projects without being on their PMC. */
  const ADMIN_ADDITIONAL_PROJECTS: seq<string> := ["infrastructure", "members", "board", "foundation"]
  const LOGIN_MESSAGE := "You need to be logged in to access this endpoint."
  const INVALID_BRANCH_MESSAGE := "Invalid branch name specified."
  const INVALID_REPOSITORY_MESSAGE := "Invalid repository specified."
  const INVALID_NAME_MESSAGE := "Invalid repository name specified"
  const NOT_PMC_MESSAGE := "Only (I)PMC members of this project may change the default branch of a repository"
  const GITHUB_FAILED_MESSAGE := "Could not archive repository on GitHub."
  const GITBOX_SENDER := "GitBox <gitbox@apache.org>"
  const HEAD_FILE := "HEAD"
  const HEAD_PREFIX := "ref: refs/heads/"
  /** Reading a module-level name that is not defined */
  const NAME_ERROR := "NameError"

  /** The posted JSON fields the handler reads; `None` is a key that is absent. */
  datatype BranchInput = BranchInput(defaultBranch: Option<string>, repository: Option<string>)

  /** How one call into GitHub ends: it returns, fails an assertion, or raises another exception. */
  datatype CallOutcome = Returned | FailedAssertion | Threw(exception: string)

  /**
   * Which permission test a run follows: the one the handler's code
   * evaluates, which reads an undefined name, or the one evidently intended.
   */
  datatype PermissionCheck = WrittenCheck | IntendedCheck

  /** A request that passed every check. */
  datatype Change = Change(repo: string, pmc: string, branch: string, filepath: string)

  datatype Vetting = Rejected(response: Response) | Approved(change: Change)

  /** A branch name that is present and not empty. */
  predicate ValidBranch(branch: Option<string>)
  {
    branch.Some? && branch.value != ""
  }

  /** A path that was found and is not empty. */
  predicate FoundPath(filepath: Option<string>)
  {
    filepath.Some? && filepath.value != ""
  }

  /**
   * The file path of the first known repository whose file name is `name`;
   * `None` when no repository has that name (always so for a missing name).
   */
  function FirstFilepath(repos: seq<GitboxRepository>, name: Option<string>): (r: Option<string>)
    ensures r.Some? ==>
      && name.Some?
      && exists i :: 0 <= i < |repos| && repos[i].filename == name.value && repos[i].filepath == r.value
           && forall j :: 0 <= j < i ==> repos[j].filename != name.value
    ensures r.None? ==> forall i :: 0 <= i < |repos| ==> Some(repos[i].filename) != name
  {
    if repos == [] then None
    else if Some(repos[0].filename) == name then
      assert repos[0].filename == name.value;
      Some(repos[0].filepath)
    else
      var r := FirstFilepath(repos[1..], name);
      if r.Some? then
        var i :| 0 <= i < |repos[1..]| && repos[1..][i].filename == name.value && repos[1..][i].filepath == r.value
               && forall j :: 0 <= j < i ==> repos[1..][j].filename != name.value;
        assert repos[i + 1] == repos[1..][i];
        assert forall j :: 1 <= j < i + 1 ==> repos[j] == repos[1..][j - 1];
        r
      else
        assert forall i :: 1 <= i < |repos| ==> repos[i] == repos[1..][i - 1];
        r
  }

  /** The handler's search loop, which stops at the first match. */
  method FindRepository(repos: seq<GitboxRepository>, name: Option<string>) returns (filepath: Option<string>)
    ensures filepath == FirstFilepath(repos, name)
  {
    filepath := None;
    var i := 0;
    while i < |repos|
      invariant 0 <= i <= |repos|
      invariant FirstFilepath(repos[i..], name) == FirstFilepath(repos, name)
    {
      if Some(repos[i].filename) == name {
        filepath := Some(repos[i].filepath);
        break;
      }
      assert repos[i..][1..] == repos[i + 1..];
      i := i + 1;
    }
  }

  /**
   * The permission check as the handler writes it: a signed-in foundation
   * member who is not an administrator makes it read the undefined name
   * `EXEC_ADDITIONAL_PROJECTS`, which raises before the directory is asked.
   */
  function AuthorizeAsWritten(creds: Credentials, pmc: string, directory: map<string, seq<string>>): (r: Access)
    ensures r.Fault? <==> !creds.admin && creds.member
  {
    if creds.admin then Granted
    else if creds.member then Fault(NAME_ERROR)
    else DirectoryCheck(creds.uid, pmc, directory, NOT_PMC_MESSAGE)
  }

  /**
   * The permission check as intended: administrators, foundation members
   * acting on one of `ADMIN_ADDITIONAL_PROJECTS`, and the project's listed
   * (I)PMC members are let through; nobody else, and it never raises.
   */
  function Authorize(creds: Credentials, pmc: string, directory: map<string, seq<string>>): (r: Access)
    ensures r == Granted <==>
      creds.admin || (creds.member && pmc in ADMIN_ADDITIONAL_PROJECTS) || creds.uid in PmcMembers(directory, pmc)
    ensures r != Granted ==> r.Refused?
    ensures r != Granted && PmcMembers(directory, pmc) == [] ==> r == Refused(InvalidPrefixMessage(pmc))
    ensures r != Granted && PmcMembers(directory, pmc) != [] ==> r == Refused(NOT_PMC_MESSAGE)
  {
    if creds.admin || (creds.member && pmc in ADMIN_ADDITIONAL_PROJECTS) then Granted
    else DirectoryCheck(creds.uid, pmc, directory, NOT_PMC_MESSAGE)
  }

  /** The written and the intended check part ways exactly for members who are not administrators. */
  lemma AuthorizeAsWrittenDiffers(creds: Credentials, pmc: string, directory: map<string, seq<string>>)
    ensures AuthorizeAsWritten(creds, pmc, directory) == Authorize(creds, pmc, directory)
      <==> creds.admin || !creds.member
  {
  }

  /**
   * A member who sits on the project's PMC, and one acting on an additional
   * project, are both turned away with an exception by the written check.
   */
  lemma MemberNameErrorExample()
    ensures var creds := Credentials("jdoe", "jdoe@apache.org", false, true);
      && AuthorizeAsWritten(creds, "httpd", map["httpd" := ["jdoe"]]) == Fault(NAME_ERROR)
      && Authorize(creds, "httpd", map["httpd" := ["jdoe"]]) == Granted
      && AuthorizeAsWritten(creds, "infrastructure", map[]) == Fault(NAME_ERROR)
      && Authorize(creds, "infrastructure", map[]) == Granted
  {
    assert ADMIN_ADDITIONAL_PROJECTS[0] == "infrastructure";
  }

  function Permission(check: PermissionCheck, creds: Credentials, pmc: string, directory: map<string, seq<string>>): Access
  {
    if check == WrittenCheck then AuthorizeAsWritten(creds, pmc, directory) else Authorize(creds, pmc, directory)
  }

  /**
   * The checks the handler makes before touching anything, in their order:
   * sign-in, the branch, the repository, its name, then the caller's
   * standing, by the permission test `check` selects. Only the written test
   * can make a check raise.
   */
  function Vet(check: PermissionCheck, creds: Option<Credentials>, input: BranchInput, repos: seq<GitboxRepository>,
               directory: map<string, seq<string>>): (r: Vetting)
    ensures creds.None? ==> r == Rejected(Reply(false, LOGIN_MESSAGE))
    ensures creds.Some? && !ValidBranch(input.defaultBranch) ==> r == Rejected(Reply(false, INVALID_BRANCH_MESSAGE))
    ensures creds.Some? && ValidBranch(input.defaultBranch) && !FoundPath(FirstFilepath(repos, input.repository))
      ==> r == Rejected(Reply(false, INVALID_REPOSITORY_MESSAGE))
    ensures creds.Some? && ValidBranch(input.defaultBranch) && FoundPath(FirstFilepath(repos, input.repository))
      && input.repository.Some? && MatchBranchRepoName(input.repository.value).None?
      ==> r == Rejected(Reply(false, INVALID_NAME_MESSAGE))
    ensures r.Approved? <==>
      && creds.Some? && ValidBranch(input.defaultBranch) && FoundPath(FirstFilepath(repos, input.repository))
      && input.repository.Some? && MatchBranchRepoName(input.repository.value).Some?
      && Permission(check, creds.value, MatchBranchRepoName(input.repository.value).value, directory) == Granted
    ensures r.Approved? ==>
      var c := r.change;
      && Some(c.repo) == input.repository
      && MatchBranchRepoName(c.repo) == Some(c.pmc)
      && Some(c.branch) == input.defaultBranch && c.branch != ""
      && Some(c.filepath) == FirstFilepath(repos, input.repository) && c.filepath != ""
    ensures r.Rejected? && r.response.Reply? ==> !r.response.okay
    ensures r.Rejected? && !r.response.Reply? ==> check == WrittenCheck && r.response == Raised(NAME_ERROR)
  {
    if creds.None? then Rejected(Reply(false, LOGIN_MESSAGE))
    else if !ValidBranch(input.defaultBranch) then Rejected(Reply(false, INVALID_BRANCH_MESSAGE))
    else
      var filepath := FirstFilepath(repos, input.repository);
      if !FoundPath(filepath) then Rejected(Reply(false, INVALID_REPOSITORY_MESSAGE))
      else
        var repo := input.repository.value;
        match MatchBranchRepoName(repo)
        case None => Rejected(Reply(false, INVALID_NAME_MESSAGE))
        case Some(pmc) =>
          match Permission(check, creds.value, pmc, directory)
          case Refused(message) => Rejected(Reply(false, message))
          case Fault(exception) => Rejected(Raised(exception))
          case Granted => Approved(Change(repo, pmc, input.defaultBranch.value, filepath.value))
  }

  /**
   * As written, every request from a foundation member who is not an
   * administrator that gets past the name check ends in `NameError`, whatever
   * the project and the directory say; the intended test approves exactly
   * those of them that act on an additional project or sit on its PMC.
   */
  lemma VetAsWrittenRaises(creds: Credentials, input: BranchInput, repos: seq<GitboxRepository>,
                           directory: map<string, seq<string>>)
    requires !creds.admin && creds.member
    requires ValidBranch(input.defaultBranch) && FoundPath(FirstFilepath(repos, input.repository))
    requires input.repository.Some? && MatchBranchRepoName(input.repository.value).Some?
    ensures Vet(WrittenCheck, Some(creds), input, repos, directory) == Rejected(Raised(NAME_ERROR))
    ensures var pmc := MatchBranchRepoName(input.repository.value).value;
      Vet(IntendedCheck, Some(creds), input, repos, directory).Approved?
      <==> pmc in ADMIN_ADDITIONAL_PROJECTS || creds.uid in PmcMembers(directory, pmc)
  {
  }

  /** The two readings of the handler decide every request alike, except those of the previous lemma. */
  lemma VetReadingsAgree(creds: Option<Credentials>, input: BranchInput, repos: seq<GitboxRepository>,
                         directory: map<string, seq<string>>)
    ensures Vet(WrittenCheck, creds, input, repos, directory) != Vet(IntendedCheck, creds, input, repos, directory)
      <==>
      && creds.Some? && !creds.value.admin && creds.value.member
      && ValidBranch(input.defaultBranch) && FoundPath(FirstFilepath(repos, input.repository))
      && input.repository.Some? && MatchBranchRepoName(input.repository.value).Some?
  {
  }

  /**
   * A PMC member of Sling who is not an administrator asks for a new default
   * branch of a known incubator repository: the written handler raises, the
   * intended one approves.
   */
  lemma VetMemberExample()
    ensures var creds := Some(Credentials("jdoe", "jdoe@apache.org", false, true));
      var input := BranchInput(Some("main"), Some("incubator-sling-foo.git"));
      var repos := [GitboxRepository("incubator-sling-foo.git", "/x1/repos/asf/incubator-sling-foo.git")];
      var directory := map["sling" := ["jdoe"]];
      && Vet(WrittenCheck, creds, input, repos, directory) == Rejected(Raised(NAME_ERROR))
      && Vet(IntendedCheck, creds, input, repos, directory)
         == Approved(Change("incubator-sling-foo.git", "sling", "main", "/x1/repos/asf/incubator-sling-foo.git"))
  {
    BranchRepoNameIncubatorExample();
  }

  /** The contents the GitBox copy's HEAD file gets: a symbolic ref to the branch, with no newline after it. */
  function HeadContent(branch: string): (content: string)
    ensures |content| == |HEAD_PREFIX| + |branch|
    ensures content[..|HEAD_PREFIX|] == HEAD_PREFIX && content[|HEAD_PREFIX|..] == branch
  {
    HEAD_PREFIX + branch
  }

  /** The branch a symbolic-ref HEAD file names, if it is one. */
  function HeadBranch(content: string): Option<string>
  {
    if |content| >= |HEAD_PREFIX| && content[..|HEAD_PREFIX|] == HEAD_PREFIX then Some(content[|HEAD_PREFIX|..])
    else None
  }

  /** The HEAD file written for a branch names that branch, and is the only file that does. */
  lemma HeadRoundTrip(branch: string, content: string)
    ensures HeadBranch(HeadContent(branch)) == Some(branch)
    ensures HeadBranch(content) == Some(branch) ==> HeadContent(branch) == content
  {
    if HeadBranch(content) == Some(branch) {
      assert content == content[..|HEAD_PREFIX|] + content[|HEAD_PREFIX|..];
    }
  }

  function RepoApiUrl(org: string, repo: string): string
  {
    "https://api.github.com/repos/" + org + "/" + repo
  }

  /**
   * The notice sent from GitBox to the private list of the project the name
   * belongs to, naming the repository, the caller and the new branch.
   */
  function ChangeMail(email: string, c: Change): (m: Effect)
    ensures m.SendMail? && m.sender == Some(GITBOX_SENDER) && m.recipients == ["private@" + c.pmc + ".apache.org"]
    ensures Contains(m.subject, c.repo)
    ensures Contains(m.body, "User " + email) && Contains(m.body, c.repo) && Contains(m.body, c.branch)
  {
    var subject := "Repository default branch changed for: " + c.repo;
    var pieces := ["User " + email, " changed the default branch of ", c.repo, " to: ", c.branch, "\n"];
    assert OccursAt(subject, c.repo, |subject| - |c.repo|);
    ConcatContains(pieces, 0);
    ConcatContains(pieces, 2);
    ConcatContains(pieces, 4);
    SendMail(Some(GITBOX_SENDER), ["private@" + c.pmc + ".apache.org"], subject, Concat(pieces))
  }

  function SuccessMessage(branch: string): string
  {
    "Repository default branch successfully updated to " + branch + "."
  }

  /** The response, the external calls and the HEAD write of the steps after the checks. */
  datatype Update = Update(response: Response, effects: seq<Effect>, headWritten: bool)

  /**
   * What happens once a change is approved: `get_id` is always called; the
   * PATCH is sent only once it returned; the HEAD file is written and the
   * notice sent only once the PATCH returned too, which is then the only
   * success. A failed assertion in either call is a failed reply, any other
   * exception escapes.
   */
  function Carry(config: Config, email: string, c: Change, getId: CallOutcome, patch: CallOutcome): (u: Update)
    ensures |u.effects| >= 1 && u.effects[0] == LookUpOrg(config.githubOrg)
    ensures u.headWritten <==> getId == Returned && patch == Returned
    ensures u.headWritten ==>
      u == Update(Reply(true, SuccessMessage(c.branch)),
                  [LookUpOrg(config.githubOrg), PatchRepo(RepoApiUrl(config.githubOrg, c.repo), c.branch),
                   ChangeMail(email, c)], true)
    ensures getId == FailedAssertion ==> u == Update(Reply(false, GITHUB_FAILED_MESSAGE), [LookUpOrg(config.githubOrg)], false)
    ensures getId.Threw? ==> u == Update(Raised(getId.exception), [LookUpOrg(config.githubOrg)], false)
    ensures getId == Returned && patch == FailedAssertion ==>
      u == Update(Reply(false, GITHUB_FAILED_MESSAGE),
                  [LookUpOrg(config.githubOrg), PatchRepo(RepoApiUrl(config.githubOrg, c.repo), c.branch)], false)
    ensures getId == Returned && patch.Threw? ==>
      u == Update(Raised(patch.exception),
                  [LookUpOrg(config.githubOrg), PatchRepo(RepoApiUrl(config.githubOrg, c.repo), c.branch)], false)
    ensures (exists i :: 0 <= i < |u.effects| && u.effects[i].PatchRepo?) <==> getId == Returned
    ensures (exists i :: 0 <= i < |u.effects| && u.effects[i].SendMail?) <==> u.headWritten
  {
    var lookUp := LookUpOrg(config.githubOrg);
    var update := PatchRepo(RepoApiUrl(config.githubOrg, c.repo), c.branch);
    match getId
    case FailedAssertion => Update(Reply(false, GITHUB_FAILED_MESSAGE), [lookUp], false)
    case Threw(exception) => Update(Raised(exception), [lookUp], false)
    case Returned =>
      assert [lookUp, update][1].PatchRepo?;
      match patch
      case FailedAssertion => Update(Reply(false, GITHUB_FAILED_MESSAGE), [lookUp, update], false)
      case Threw(exception) => Update(Raised(exception), [lookUp, update], false)
      case Returned =>
        var mail := ChangeMail(email, c);
        assert [lookUp, update, mail][1].PatchRepo? && [lookUp, update, mail][2].SendMail?;
        Update(Reply(true, SuccessMessage(c.branch)), [lookUp, update, mail], true)
  }

  /**
   * The handler, following the permission test `check` selects. The
   * server's repository list is read from `data`, the directory maps a
   * prefix to `pmc_list`, and `getId` and `patch` are how GitHub's two calls
   * end.
   */
  method Process(check: PermissionCheck, data: Background.ServerData, host: Host, config: Config,
                 creds: Option<Credentials>, input: BranchInput, directory: map<string, seq<string>>,
                 getId: CallOutcome, patch: CallOutcome)
    returns (r: Response)
    modifies host
    ensures host.dirs == old(host.dirs)
    ensures var v := Vet(check, creds, input, data.repositories, directory);
      v.Rejected? ==>
        r == v.response && host.files == old(host.files) && host.effects == old(host.effects)
    ensures var v := Vet(check, creds, input, data.repositories, directory);
      v.Approved? ==>
        var u := Carry(config, creds.value.email, v.change, getId, patch);
        && r == u.response
        && host.effects == old(host.effects) + u.effects
        && host.files == (if u.headWritten then old(host.files)[PosixJoin(v.change.filepath, HEAD_FILE) := HeadContent(v.change.branch)]
                          else old(host.files))
  {
    if creds.None? {
      return Reply(false, LOGIN_MESSAGE);
    }
    if !ValidBranch(input.defaultBranch) {
      return Reply(false, INVALID_BRANCH_MESSAGE);
    }
    var branch := input.defaultBranch.value;
    var filepath := FindRepository(data.repositories, input.repository);
    if !FoundPath(filepath) {
      return Reply(false, INVALID_REPOSITORY_MESSAGE);
    }
    var repo := input.repository.value;
    var pmc := MatchBranchRepoName(repo);
    if pmc.None? {
      return Reply(false, INVALID_NAME_MESSAGE);
    }
    var access := Permission(check, creds.value, pmc.value, directory);
    match access {
      case Refused(message) =>
        return Reply(false, message);
      case Fault(exception) =>
        return Raised(exception);
      case Granted =>
    }
    r := Apply(host, config, creds.value.email, Change(repo, pmc.value, branch, filepath.value), getId, patch);
  }

  /** GitHub's two calls, the HEAD write and the notice, once the change is approved. */
  method Apply(host: Host, config: Config, email: string, c: Change, getId: CallOutcome, patch: CallOutcome)
    returns (r: Response)
    modifies host`files, host`effects
    ensures var u := Carry(config, email, c, getId, patch);
      && r == u.response
      && host.effects == old(host.effects) + u.effects
      && host.files == (if u.headWritten then old(host.files)[PosixJoin(c.filepath, HEAD_FILE) := HeadContent(c.branch)]
                        else old(host.files))
  {
    host.effects := host.effects + [LookUpOrg(config.githubOrg)];
    match getId {
      case FailedAssertion =>
        return Reply(false, GITHUB_FAILED_MESSAGE);
      case Threw(exception) =>
        return Raised(exception);
      case Returned =>
    }
    host.effects := host.effects + [PatchRepo(RepoApiUrl(config.githubOrg, c.repo), c.branch)];
    match patch {
      case FailedAssertion =>
        return Reply(false, GITHUB_FAILED_MESSAGE);
      case Threw(exception) =>
        return Raised(exception);
      case Returned =>
    }
    var head := PosixJoin(c.filepath, HEAD_FILE);
    host.files := host.files[head := HeadContent(c.branch)];
    host.effects := host.effects + [ChangeMail(email, c)];
    r := Reply(true, SuccessMessage(c.branch));
  }
}
