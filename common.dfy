/**
 * Values and state shared by the two request handlers and the background
 * task: optional values, handler responses, the caller's credentials, the
 * part of the filesystem the handlers touch, and the log of calls into
 * services outside the process.
 */
module Common {

  datatype Option<+T> = None | Some(value: T)

  /** What an endpoint's `process` coroutine produces. */
  datatype Response =
    | Reply(okay: bool, message: string)   // the JSON dict {"okay": ..., "message": ...}
    | NoReply                              // the coroutine falls off its end and returns None
    | Raised(exception: string)            // an exception escapes the handler

  /** `session.credentials`; a missing session is `None` at the call sites. */
  datatype Credentials = Credentials(uid: string, email: string, admin: bool, member: bool)

  /** The fields of the JSON body posted to GitHub's create-repository call. */
  datatype CreateRepoRequest = CreateRepoRequest(
    url: string,
    name: string,
    description: string,
    homepage: string,
    isPrivate: bool,
    hasIssues: bool,
    hasProjects: bool,
    hasWiki: bool)

  /** Calls into services outside the process, in the order they are issued. */
  datatype Effect =
    | CreateRepo(request: CreateRepoRequest)
    | RunClone(executable: string, args: seq<string>)
    | SendMail(sender: Option<string>, recipients: seq<string>, subject: string, body: string)
    | LookUpOrg(login: string)                  // GitHub's `get_id` for the organisation
    | PatchRepo(url: string, defaultBranch: string)

  /** A repository the gitbox scanner found (`plugins.repositories`): its directory name and its path. */
  datatype GitboxRepository = GitboxRepository(filename: string, filepath: string)

  /** The parts of the configuration the handlers read. */
  datatype Config = Config(githubOrg: string, publicRoot: string, privateRoot: string)

  /**
   * `pmc_list` as the directory returns it for a project prefix: the
   * directory is given as a map, and a prefix it does not know yields the
   * empty list.
   */
  function PmcMembers(directory: map<string, seq<string>>, pmc: string): (r: seq<string>)
    ensures pmc !in directory ==> r == []
  {
    if pmc in directory then directory[pmc] else []
  }

  /** The outcome of a handler's permission check. */
  datatype Access = Granted | Refused(message: string) | Fault(exception: string)

  function InvalidPrefixMessage(pmc: string): string
  {
    "Invalid project prefix '" + pmc + "' specified"
  }

  /**
   * The directory check both handlers make for callers who are not let
   * through otherwise: an unknown project (empty `pmc_list`) is refused as
   * an invalid prefix, a caller outside `pmc_list` with `notMemberMessage`.
   */
  function DirectoryCheck(uid: string, pmc: string, directory: map<string, seq<string>>, notMemberMessage: string): (r: Access)
    ensures r == Granted <==> uid in PmcMembers(directory, pmc)
    ensures PmcMembers(directory, pmc) == [] ==> r == Refused(InvalidPrefixMessage(pmc))
    ensures PmcMembers(directory, pmc) != [] && uid !in PmcMembers(directory, pmc) ==> r == Refused(notMemberMessage)
  {
    var pmcList := PmcMembers(directory, pmc);
    if pmcList == [] then Refused(InvalidPrefixMessage(pmc))
    else if uid !in pmcList then Refused(notMemberMessage)
    else Granted
  }

  predicate NoSlash(s: string)
  {
    forall i :: 0 <= i < |s| ==> s[i] != '/'
  }

  /**
   * `os.path.join(a, b)` on POSIX: an absolute `b` replaces `a`; otherwise a
   * separator is inserted unless `a` is empty or already ends in one.
   */
  function PosixJoin(a: string, b: string): (r: string)
    ensures |b| > 0 && b[0] == '/' ==> r == b
    ensures !(|b| > 0 && b[0] == '/') ==>
      && |a| + |b| <= |r| <= |a| + |b| + 1
      && r[..|a|] == a && r[|r| - |b|..] == b
      && (|r| == |a| + |b| + 1 ==> r[|a|] == '/')
      && (a != [] ==> r[|r| - |b| - 1] == '/')
  {
    if |b| > 0 && b[0] == '/' then b
    else if a == [] || a[|a| - 1] == '/' then a + b
    else a + "/" + b
  }

  /** Index one past the last '/' of `s`, or 0 when there is none. */
  function LastSlashEnd(s: string): (n: nat)
    ensures n <= |s|
    ensures n > 0 ==> s[n - 1] == '/'
    ensures NoSlash(s[n..])
  {
    if s == [] then 0
    else if s[|s| - 1] == '/' then |s|
    else
      var k := LastSlashEnd(s[..|s| - 1]);
      assert s[k..] == s[..|s| - 1][k..] + [s[|s| - 1]];
      k
  }

  /** `os.path.basename`: the part after the last '/'. */
  function Basename(path: string): string
  {
    path[LastSlashEnd(path)..]
  }

  /**
   * `os.path.dirname`: the part up to the last '/', with the trailing
   * separator dropped unless the head consists of separators only.
   */
  function Dirname(path: string): string
  {
    var head := path[..LastSlashEnd(path)];
    if head != [] && !AllSlashes(head) then StripTrailingSlashes(head) else head
  }

  predicate AllSlashes(s: string)
  {
    forall i :: 0 <= i < |s| ==> s[i] == '/'
  }

  function StripTrailingSlashes(s: string): (r: string)
    ensures |r| <= |s| && r == s[..|r|]
    ensures r == [] || r[|r| - 1] != '/'
  {
    if s != [] && s[|s| - 1] == '/' then StripTrailingSlashes(s[..|s| - 1]) else s
  }

  /** Taking the suffix after the last separator of `a + [c] + b` finds `b` when `b` has none. */
  lemma {:induction false} LastSlashEndOfJoin(a: string, b: string)
    requires NoSlash(b)
    ensures LastSlashEnd(a + "/" + b) == |a| + 1
    decreases |b|
  {
    var s := a + "/" + b;
    if b == [] {
      assert s[|s| - 1] == '/';
    } else {
      var b' := b[..|b| - 1];
      assert s[..|s| - 1] == a + "/" + b';
      assert s[|s| - 1] == b[|b| - 1];
      LastSlashEndOfJoin(a, b');
    }
  }

  /** A single path component: not empty, and free of separators. */
  predicate Component(s: string)
  {
    s != [] && NoSlash(s)
  }

  /**
   * Joining a relative name that holds no separator onto a directory that is
   * not empty and does not end in one can be undone: the base name gives the
   * name back and the directory name gives the directory back.
   */
  lemma JoinSplits(dir: string, name: string)
    requires dir != [] && dir[|dir| - 1] != '/'
    requires Component(name)
    ensures PosixJoin(dir, name) == dir + "/" + name
    ensures Basename(PosixJoin(dir, name)) == name
    ensures Dirname(PosixJoin(dir, name)) == dir
  {
    AppendedName(dir, name);
  }

  /**
   * The same for a name written after a separator by hand, as in a URL: the
   * name is the base name, and the part before is the directory name unless
   * it is empty or ends in a separator itself.
   */
  lemma AppendedName(dir: string, name: string)
    requires NoSlash(name)
    ensures Basename(dir + "/" + name) == name
    ensures dir != [] && dir[|dir| - 1] != '/' ==> Dirname(dir + "/" + name) == dir
  {
    var s := dir + "/" + name;
    LastSlashEndOfJoin(dir, name);
    assert s[..|dir| + 1] == dir + "/";
    assert s[|dir| + 1..] == name;
    if dir != [] && dir[|dir| - 1] != '/' {
      var head := dir + "/";
      assert !AllSlashes(head) by {
        if dir[0] == '/' {
          assert head[|dir| - 1] == dir[|dir| - 1];
        } else {
          assert head[0] == dir[0];
        }
      }
      assert head[..|head| - 1] == dir;
      assert StripTrailingSlashes(head) == StripTrailingSlashes(dir) == dir;
    }
  }

  /** `part` occurs in `s` starting at index `k`. */
  predicate OccursAt(s: string, part: string, k: int)
  {
    0 <= k <= |s| - |part| && s[k..k + |part|] == part
  }

  /** `part` occurs in `s` as a contiguous stretch. */
  ghost predicate Contains(s: string, part: string)
  {
    exists k :: OccursAt(s, part, k)
  }

  /** The pieces written one after another: the literal text and the fields of a message template. */
  function Concat(pieces: seq<string>): (r: string)
    ensures pieces == [] ==> r == []
  {
    if pieces == [] then [] else pieces[0] + Concat(pieces[1..])
  }

  /** Every piece of a filled-in template occurs in the text. */
  lemma {:induction false} ConcatContains(pieces: seq<string>, i: nat)
    requires i < |pieces|
    ensures Contains(Concat(pieces), pieces[i])
    decreases i
  {
    var s := Concat(pieces);
    var part := pieces[i];
    if i == 0 {
      assert OccursAt(s, part, 0);
    } else {
      ConcatContains(pieces[1..], i - 1);
      var rest := Concat(pieces[1..]);
      var k :| OccursAt(rest, part, k);
      var head := pieces[0];
      assert s[|head| + k..|head| + k + |part|] == rest[k..k + |part|];
      assert OccursAt(s, part, |head| + k);
    }
  }

  /**
   * The part of the filesystem and of the outside world the request
   * handlers change: directories that exist, regular files with their
   * contents, and the external calls issued so far.
   */
  class Host {
    var dirs: set<string>
    var files: map<string, string>
    var effects: seq<Effect>

    constructor (dirs: set<string>, files: map<string, string>)
      ensures this.dirs == dirs && this.files == files && effects == []
    {
      this.dirs := dirs;
      this.files := files;
      effects := [];
    }

    /** `os.path.exists` */
    predicate Exists(path: string)
      reads this
    {
      path in dirs || path in files
    }
  }
}
