# Boxer core in Dafny

Boxer is the Apache Software Foundation's service that links committers'
GitHub accounts to the ASF directory. It keeps GitHub team membership in
step with project rosters, and it lets project officers create and adjust
repositories. This project models and proves three parts of it:

- **The background reconciliation pass** (`run_tasks`, one iteration of its
  loop), modelled as imperative Dafny:
  - `Background.ServerData` is a class holding the process-wide data. A pass
    reassigns its fields.
  - `Background.Person` is a class for a committer record. The pass flips its
    `githubMfa` flag in place and counts its `save()` calls.
  - Calls to GitHub, the gitbox scanner and the project compiler are inputs
    of the pass (`CycleInputs`).
  - Calls with an outside effect (`setup_teams`, `set_membership`) and the
    final sleep are logged as `Event`s.
- **The repository-creation endpoint** (`server/endpoints/repository.py`):
  - the ordered chain of early refusals;
  - the repository-name grammar, matched by hand, with its project prefix;
  - the permission check;
  - the defaults for title and mail targets;
  - the filesystem path and the URLs;
  - the effectful sequence: make the project directory, create the
    repository on GitHub, clone, notify. The directories, files and external
    calls live in a `Common.Host` object.
- **The default-branch endpoint** (`server/endpoints/defaultbranch.py`):
  - the guard chain;
  - the first-match search of the known repositories, as a loop;
  - the second name grammar (optional `incubator-` prefix, optional `.git`);
  - the permission check, as written and as intended;
  - the GitHub-then-HEAD-then-mail ordering;
  - the exact HEAD file content.

Both regular expressions are matched by `RepoNames.MatchStem`.
`RepoNames.MatchStemCorrect` proves it equivalent to a declarative
description, and the description follows Python's `re` semantics:
- `$` also accepts one final newline, so `"httpd.git\n"` is a valid create name;
- the optional `incubator-` prefix is tried first and abandoned only when
  the rest fails, so `incubator-sling-` yields the prefix `incubator`.

The GraphQL use reported at the end of a pass is never negative. The code
subtracts the start reading only when the counter grew, and otherwise
reports the end reading.

Files: `common.dfy` (module `Common`), `repo_names.dfy` (`RepoNames`),
`background.dfy` (`Background`), `repository.dfy` (`Repository`),
`default_branch.dfy` (`DefaultBranch`).

## Model

| member | source | states |
|---|---|---|
| Background.MfaTarget | server/plugins/background.py:80-83 | After the pass, a linked account that GitHub reports carries GitHub's flag. Any other person keeps their flag. The flag changes exactly when it differed from GitHub's value, and the result never needs another update. |
| Background.SaveCount | server/plugins/background.py:82-84 | A person is saved at most once per pass, and exactly when their flag changed. |
| Background.MembershipCalls | server/plugins/background.py:93-109 | Every `set_membership` call is for a team of the loaded list that is a committers team with a known project that has committers. It passes that project's public GitHub team. There are never more calls than teams. |
| Background.MembershipCallsComplete | server/plugins/background.py:94-100 | Conversely, every eligible team gets its call, with its project's public team. |
| Background.CycleEvents | server/plugins/background.py:90-117 | A completed pass calls `setup_teams` exactly once, first. Then come only membership calls, and the last event is the sleep for the refresh rate. |
| Background.GraphqlUsed | server/plugins/background.py:111-114 | The reported use never exceeds the end reading. It is the growth when the counter grew, and otherwise the whole end reading. |
| Background.Person.Save | server/plugins/background.py:84 | Each `save()` adds one database write for that person. |
| Background.ServerData.AdjustMfa | server/plugins/background.py:79-84 | The loop leaves every listed person with `MfaTarget` of their old flag and saves them `SaveCount` times. A person listed twice is saved at most once. |
| Background.ServerData.AdjustTeams | server/plugins/background.py:93-109 | The loop appends exactly `MembershipCalls` of the loaded teams, in team order. |
| Background.ServerData.ApplyProjection | server/plugins/background.py:65-74 | A successful projection replaces projects and people. A failed one keeps the previous ones. |
| Background.ServerData.SyncTeams | server/plugins/background.py:86-100 | Stores the loaded teams, logs `setup_teams` with the current projects, then the membership calls. |
| Background.ServerData.Reproject | server/plugins/background.py:52-84 | Stores the listing, the projection or the previous data, and GitHub's MFA map. Every current person is brought to their MFA target. People the projection dropped are untouched. |
| Background.ServerData.Refresh | server/plugins/background.py:52-117 | The phases after a good listing. The new state is given field by field, and the events are `CycleEvents`. |
| Background.ServerData.RunCycle | server/plugins/background.py:43-117 | A failing start-of-pass quota query ends the loop and changes nothing. A failing listing sleeps 10 seconds and changes nothing else: no projection, MFA save or team call. Otherwise the pass completes with the state `Refresh` gives, and reports `GraphqlUsed` of the two readings. |
| Common.DirectoryCheck | server/endpoints/repository.py:66-72 | The caller passes exactly when listed in `pmc_list`. An unknown project is refused as an invalid prefix. A known project the caller is not on is refused with the handler's own message. |
| Common.PosixJoin | server/endpoints/repository.py:77-83 | An absolute second part replaces the first. Otherwise the result is the first part, at most one added separator, then the second part. A non-empty first part is always followed by a separator. |
| Common.JoinSplits | server/endpoints/repository.py:77-83 | Joining a separator-free name onto a directory can be undone: `basename` gives the name back and `dirname` gives the directory back. |
| Common.AppendedName | server/endpoints/repository.py:74-81 | The same holds for a name written after a separator by hand, as in the URLs. The base name is the name. The part before is the directory name when it is not empty and does not end in a separator. |
| RepoNames.PmcRun | server/endpoints/repository.py:59 | Group 1 is the longest `[a-z0-9]` prefix: every character of it is in the class, and the next character is not. |
| RepoNames.PmcRunOfSplit | server/endpoints/repository.py:59 | Group 1 of a `[a-z0-9]` run followed by anything else is exactly that run. |
| RepoNames.NoGitSuffixInTail | server/endpoints/repository.py:59 | A dash group never ends in ".git", so the group and the extension cannot overlap. |
| RepoNames.MatchStemSound | server/endpoints/repository.py:59 | Whenever the matcher accepts, the name splits into group 1, an optional dash group, the extension and what `$` admits. |
| RepoNames.MatchStemComplete | server/endpoints/repository.py:59 | Every such split is found by the matcher, with the same group 1. |
| RepoNames.MatchStemCorrect | server/endpoints/repository.py:59-62 | The matcher returns `pmc` if and only if the pattern matches with group 1 equal to `pmc`. |
| RepoNames.CreateNameCorrect | server/endpoints/repository.py:59-62 | A create name is accepted with prefix `pmc` if and only if it is `pmc` (`[a-z0-9]+`), an optional `-[-0-9a-z]+`, ".git", and at most a final newline. |
| RepoNames.CreateNameIsComponent | server/endpoints/repository.py:59-62 | An accepted name and its prefix contain no '/'. The prefix is non-empty, starts the name, and contains neither '-' nor '.'. |
| RepoNames.CreateNamePlainExample | server/endpoints/repository.py:59 | "httpd.git" gives "httpd". |
| RepoNames.CreateNameDashExample | server/endpoints/repository.py:59 | "sling-foo.git" gives "sling". |
| RepoNames.CreateNameNewlineExample | server/endpoints/repository.py:59 | "httpd.git" followed by a newline is accepted too, with "httpd". |
| RepoNames.BadFirstCharRejected | server/endpoints/repository.py:59-61 | A name whose first character is outside `[a-z0-9]` is refused. |
| RepoNames.MissingGitRejected | server/endpoints/repository.py:59-61 | A bare `[a-z0-9]` word without ".git" is refused by the create pattern. |
| RepoNames.CreateNameRejections | server/endpoints/repository.py:59-61 | "httpd", "Httpd.git" and "-httpd.git" are refused. |
| RepoNames.BranchPrefixedWins | server/endpoints/defaultbranch.py:52-55 | When the text after "incubator-" is a valid stem, it decides group 1. |
| RepoNames.BranchPlainDecides | server/endpoints/defaultbranch.py:52-55 | When it is not, no reading with the prefix exists, and the whole name is matched without it. |
| RepoNames.BranchRepoNameCorrect | server/endpoints/defaultbranch.py:52-55 | The default-branch matcher returns `pmc` if and only if one of two holds. Either the prefixed reading gives `pmc`, or no prefixed reading exists and the unprefixed one gives `pmc`. |
| RepoNames.BranchRepoNameIncubatorExample | server/endpoints/defaultbranch.py:52-55 | "incubator-sling-foo.git" gives "sling". |
| RepoNames.BranchRepoNamePlainExample | server/endpoints/defaultbranch.py:52-55 | "sling-foo", without ".git", gives "sling". |
| RepoNames.DanglingDashRejected | server/endpoints/defaultbranch.py:52 | A prefix followed by a lone dash is no stem: a dash group needs a character after its dash. |
| RepoNames.BacktrackedPrefix | server/endpoints/defaultbranch.py:52-55 | When the text after "incubator-" fails on its own but is a dash-group tail, the name matches with group 1 "incubator". |
| RepoNames.BranchRepoNameBacktrackExample | server/endpoints/defaultbranch.py:52-55 | "incubator-sling-" gives "incubator". |
| Repository.WithDefault | server/endpoints/repository.py:63 | A supplied field is used as given. A missing one takes the default. |
| Repository.Authorize | server/endpoints/repository.py:66-72 | The caller may create exactly when admin or listed in `pmc_list`. An admin passes without regard to the directory. Otherwise the refusal is the invalid-prefix or the PMC-only message. |
| Repository.Validate | server/endpoints/repository.py:51-72 | The checks run in order: sign-in, then action (any other action gets no reply), a missing name (raises), the name grammar, then permission. The request is accepted exactly when all pass. It then carries the caller, the name, group 1 as the project, and the supplied or default title and mail targets. Every refusal that is a reply is a failed reply. |
| Repository.Locate | server/endpoints/repository.py:74-83 | A target has a project directory exactly when the repository is private. Both URLs end in the repository's name. The GitHub URL's parent is `https://github.com/<org>`, ending in the organisation. The GitBox URL's parent is `repos/asf` for a public repository, and `repos/private/<pmc>` for a private one, ending in the project. |
| Repository.LocateLayout | server/endpoints/repository.py:74-83 | For well-formed roots, a public repository sits directly in the public root under its own name. A private one sits in `<private root>/<pmc>/`, under its own name. |
| Repository.CreateRepoCall | server/endpoints/repository.py:116-130 | The POST goes to the organisation's repository list. It creates the requested name, described by the title, with the project's site as home page, private exactly when asked, and with issues, projects and wiki switched off. |
| Repository.OneRepository | server/endpoints/repository.py:74-130 | For an accepted name, every step acts on one repository. The name GitHub creates is the base name of the path, of both URLs and of the clone source. The clone writes to the located path. The repository is private on GitHub exactly when it has a project directory. |
| Repository.NotifyBody | server/endpoints/repository.py:31-43 | The filled-in template contains the requester's address with the name, both mail targets, and both URLs. |
| Repository.NotifyMail | server/endpoints/repository.py:104-108 | The notice goes to the infrastructure team's private list only, with no sender given. Its subject names the repository, and its body is the filled-in template. |
| Repository.Provision | server/endpoints/repository.py:94-113 | GitHub creation is always requested first. The clone runs only after a 201. Success requires a 201 and clone exit code 0, and only then is the notification mailed. Otherwise the message is GitHub's text or the clone's stderr. The clone leaves the repository at the target path exactly when the request succeeds. |
| Repository.Provide | server/endpoints/repository.py:94-113 | The steps append exactly the calls `Provision` lists and return its response. The target path becomes a directory exactly when `Provision` says the clone left the repository there. |
| Repository.Install | server/endpoints/repository.py:74-113 | In order: a project directory blocked by a file raises; a missing one is made; a taken target path is refused with no GitHub call; otherwise the outcome is `Provision`'s, and after a successful clone the repository's directory exists at the target path. |
| Repository.Process | server/endpoints/repository.py:48-113 | A refused request changes nothing. An accepted one ends as `Install` states. Regular files never change: the made project directory and the cloned repository are directories. |
| Repository.CreateTwice | server/endpoints/repository.py:76-87 | The same create request made twice in a row: when the first one succeeds, the second is refused because a repository by that name already exists. |
| DefaultBranch.FirstFilepath | server/endpoints/defaultbranch.py:42-49 | The path found is that of the first repository whose file name equals the requested name. No path is found when no repository has that name, or when no name was given. |
| DefaultBranch.FindRepository | server/endpoints/defaultbranch.py:43-47 | The `for`/`break` scan returns exactly `FirstFilepath`. |
| DefaultBranch.AuthorizeAsWritten | server/endpoints/defaultbranch.py:57-63 | As written, the check raises exactly for callers who are members but not admins. |
| DefaultBranch.Authorize | server/endpoints/defaultbranch.py:26 | As intended, the caller passes exactly when one of these holds: admin; a member acting on one of the four additional projects; listed in `pmc_list`. It never raises, and it refuses with the invalid-prefix or the PMC-only message. |
| DefaultBranch.AuthorizeAsWrittenDiffers | server/endpoints/defaultbranch.py:57 | The written and the intended check agree exactly for admins and for non-members. |
| DefaultBranch.MemberNameErrorExample | server/endpoints/defaultbranch.py:57 | A member on the httpd PMC, or one acting on "infrastructure", gets an exception from the written check and is let through by the intended one. |
| DefaultBranch.Vet | server/endpoints/defaultbranch.py:34-63 | The checks run in order: sign-in, a non-empty branch, a known repository with a non-empty path, the name grammar, then permission. Permission is decided by the check the caller selects: `WrittenCheck` is line 57 as written (`AuthorizeAsWritten`), `IntendedCheck` is the corrected test (`Authorize`). The change is approved exactly when all pass. It then names the requested repository and branch, group 1 as the project, and the first match's path. Every refusal that is a reply is a failed reply. Only the written check can raise, and then only `NameError`. |
| DefaultBranch.VetAsWrittenRaises | server/endpoints/defaultbranch.py:34-63 | As written, a request from a member who is not an admin and passes the name check always ends in `NameError`. The intended check approves such a request exactly when it is for an additional project or the caller is on the PMC. |
| DefaultBranch.VetReadingsAgree | server/endpoints/defaultbranch.py:57 | The written and the intended handler decide a request differently exactly when the request is from a member who is not an admin and it passes every earlier check. |
| DefaultBranch.VetMemberExample | server/endpoints/defaultbranch.py:52-63 | A Sling PMC member who is not an admin, changing "incubator-sling-foo.git" to "main", gets `NameError` from the written handler. The intended handler approves the change. |
| DefaultBranch.HeadContent | server/endpoints/defaultbranch.py:77-78 | The HEAD file holds `ref: refs/heads/` followed by exactly the branch, with nothing after it. |
| DefaultBranch.ChangeMail | server/endpoints/defaultbranch.py:82-87 | The notice goes from GitBox to the private list of the project the name belongs to. Its subject names the repository, and its body names the caller, the repository and the new branch. |
| DefaultBranch.Carry | server/endpoints/defaultbranch.py:66-90 | `get_id` is always called. The PATCH is sent only when `get_id` returned. The HEAD file is written and the notice sent only when both calls returned, and that is the only success. A failed assertion in either call gives the failed reply. Any other exception escapes, after only the calls made so far. |
| DefaultBranch.Apply | server/endpoints/defaultbranch.py:66-90 | The steps append exactly `Carry`'s calls, write HEAD exactly when `Carry` says, and return its response. |
| DefaultBranch.HeadRoundTrip | server/endpoints/defaultbranch.py:76-78 | The HEAD file written for a branch names that branch, and it is the only content that does. |
| DefaultBranch.Process | server/endpoints/defaultbranch.py:31-90 | A refused request changes nothing, and under `WrittenCheck` that includes the `NameError` of line 57. An approved one ends as `Carry` states. On success the HEAD file `<path>/HEAD` holds `HeadContent` of the branch, and nothing else in the filesystem changes. |

## Left out

- The timing and logging of each phase (`ProgTimer`, `time_taken`, the prints): they are wall-clock floats and console output only.
- `load_repositories` (server/plugins/background.py:64): its result is never used. The REST rate-limit reading (line 47) is only printed.
- Uncaught exceptions after the start of a pass: `load_repositories`, `get_mfa_status`, `load_teams`, `setup_teams`, `set_membership` and the final rate-limit query. Each would end the loop; the model lets each of these calls succeed. Only a failure of `get_id` or of the start-of-pass quota queries is modelled, as `Crashed`.
- `set_membership`'s own add/remove diff, `setup_teams`, `load_teams`, `compile_data` and `public_github_team()`: they are defined in modules that are not part of this model. The calls are logged with their arguments, and a project's public team is a given field.
- Sharing of person objects between projects and `people` inside `compile_data`: not visible in the modelled code.
- The `is not` test on the MFA flag is modelled as inequality of booleans.
- The directory (LDAP) client is a map from project prefix to `pmc_list`. Its connection failures and exceptions are not modelled.
- Repository.Process: the clone's stderr is taken as already-rendered text. Python's `str()` of a bytes object (the `b'...'` form and its escapes) is not modelled.
- Repository.Provide: a clone that exits with a non-zero code is taken to leave nothing at the target path. The contents of the cloned repository are not modelled, only the directory at its path.
- Repository.Process: `os.mkdir` failing for a missing private root, or for lack of permission, is not modelled. Only a regular file in the way is (`FileExistsError`).
- DefaultBranch.Process: `open` failing on the HEAD path is not modelled.
- DefaultBranch.Process: an exception from `asfpy.messaging.mail` (defaultbranch.py:82) is not modelled. In the source it escapes after the HEAD file has already changed. The model lets the mail call succeed and replies success.
- Repository.Provision: an exception raised by `create_repo`'s POST (repository.py:118-130) is not modelled. This includes a connection or read that exceeds its 15-second limit. The model takes GitHub's reply as given.
- Repository.Provision: a failure to start the clone subprocess (repository.py:98), for example a missing `gitbox-clone`, is not modelled. The model takes the clone's exit code as given.
- Repository.Provision: an exception from `asfpy.messaging.mail` (repository.py:104) is not modelled. In the source it escapes after the repository was created and cloned. The model replies success.
- JSON input fields are modelled as strings or absent. Other JSON types (numbers, lists, `null` for `private`) are not modelled; `private` is taken as its truth value.
- Mail delivery, the GitHub HTTP sessions and their authentication tokens: they are external calls, logged as `Effect`s with their arguments.
- `server/plugins/oauthGeneric.py` (a single token-exchange POST) and `htdocs/js/boxer.js` (browser code) are not part of this model.
- asyncio scheduling: the pass runs sequentially, and the sleep is logged with its duration.

## Findings

| source | as written | input that shows it | evidently intended | confidence | as-written member | corrected member |
|---|---|---|---|---|---|---|
| server/endpoints/defaultbranch.py:57 | The permission test reads `EXEC_ADDITIONAL_PROJECTS`, a name defined nowhere, so `NameError` escapes the handler | a signed-in caller with `admin` false and `member` true, for any known repository, e.g. an httpd PMC member changing httpd's default branch | `ADMIN_ADDITIONAL_PROJECTS` (line 26): members may act on those four projects, and everyone else goes through the `pmc_list` check | high; not executed | DefaultBranch.AuthorizeAsWritten | DefaultBranch.Authorize |
