/**
 The git metadata of the running script: the search for the .git directory, the commit it
 points to, and the per-directory cache that is refreshed on every request.
 */
module GitCache {
  import opened Options

  const PATH_MAX := 4096
  const READ_MAX := 255

  datatype Access = Found | Missing | Denied

  /**
   One state of the file system: what access(2) answers for a path, the contents of files,
   and the origin URL in the configuration of a git directory.
   */
  datatype FileSystem = FileSystem(
    access: string -> Access,
    contents: string -> Option<string>,
    originUrl: string -> Option<string>)

  /** A path as a PATH_MAX buffer holds it, with room for the terminator. */
  function Path(s: string): (r: string)
    ensures r <= s && |r| < PATH_MAX
  {
    if |s| < PATH_MAX then s else s[..PATH_MAX - 1]
  }

  /******* The .git directory *******/

  /** The position of the last separator. */
  function LastSlash(s: string): (r: Option<nat>)
    ensures r.None? <==> '/' !in s
    ensures r.Some? ==> r.value < |s| && s[r.value] == '/' && '/' !in s[r.value + 1..]
  {
    if s == [] then None
    else if s[|s| - 1] == '/' then Some(|s| - 1)
    else
      assert s == s[..|s| - 1] + [s[|s| - 1]];
      var r := LastSlash(s[..|s| - 1]);
      if r.Some? then
        assert s[r.value + 1..] == s[..|s| - 1][r.value + 1..] + [s[|s| - 1]];
        r
      else r
  }

  function GitPath(dir: string): string {
    Path(dir + "/.git")
  }

  function Probe(fs: FileSystem, dir: string): Access {
    fs.access(GitPath(dir))
  }

  function GitDirFrom(fs: FileSystem, dir: string): Option<string>
    decreases |dir|
  {
    match Probe(fs, dir)
    case Found => Some(GitPath(dir))
    case Denied => None
    case Missing =>
      var slash := LastSlash(dir);
      if slash.None? then None else GitDirFrom(fs, dir[..slash.value])
  }

  function FindGitDir(fs: FileSystem, start: string): Option<string> {
    GitDirFrom(fs, Path(start))
  }

  /** `p` is `dir` or one of the directories above it. */
  ghost predicate IsAncestor(p: string, dir: string) {
    p <= dir && (p == dir || dir[|p|] == '/')
  }

  /** The search stops at `p`: nothing answers below it. */
  ghost predicate StopsAt(fs: FileSystem, dir: string, p: string) {
    && IsAncestor(p, dir) && !Probe(fs, p).Missing?
    && forall q :: IsAncestor(q, dir) && |q| > |p| ==> Probe(fs, q).Missing?
  }

  lemma AncestorsAbove(dir: string, k: nat, q: string)
    requires LastSlash(dir) == Some(k)
    ensures IsAncestor(q, dir) <==> q == dir || IsAncestor(q, dir[..k])
  {
    forall n | k < n < |dir| ensures dir[n] != '/' {
      assert dir[n] == dir[k + 1..][n - k - 1];
    }
    if IsAncestor(q, dir) && q != dir {
      assert q == dir[..|q|];
      assert q == dir[..k] || dir[..k][|q|] == '/';
    }
    if IsAncestor(q, dir[..k]) {
      assert q <= dir;
    }
  }

  /** The directory found is that of the nearest ancestor that answers, if it may be read. */
  lemma {:induction false} NearestGitDir(fs: FileSystem, dir: string, p: string)
    requires StopsAt(fs, dir, p)
    ensures GitDirFrom(fs, dir) == if Probe(fs, p).Found? then Some(GitPath(p)) else None
    decreases |dir|
  {
    if Probe(fs, dir).Missing? {
      assert p != dir;
      var slash := LastSlash(dir);
      assert dir[|p|] == '/';
      assert slash.Some?;
      AncestorsAbove(dir, slash.value, p);
      forall q | IsAncestor(q, dir[..slash.value]) && |q| > |p| ensures Probe(fs, q).Missing? {
        AncestorsAbove(dir, slash.value, q);
      }
      NearestGitDir(fs, dir[..slash.value], p);
    } else {
      assert IsAncestor(dir, dir);
      assert |p| == |dir|;
      assert p == dir;
    }
  }

  /** Where no ancestor answers, no directory is found. */
  lemma {:induction false} NoGitDir(fs: FileSystem, dir: string)
    requires forall q :: IsAncestor(q, dir) ==> Probe(fs, q).Missing?
    ensures GitDirFrom(fs, dir) == None
    decreases |dir|
  {
    assert IsAncestor(dir, dir);
    var slash := LastSlash(dir);
    if slash.Some? {
      forall q | IsAncestor(q, dir[..slash.value]) ensures Probe(fs, q).Missing? {
        AncestorsAbove(dir, slash.value, q);
      }
      NoGitDir(fs, dir[..slash.value]);
    }
  }

  method SearchGitDir(fs: FileSystem, startDir: string) returns (r: Option<string>)
    ensures r == FindGitDir(fs, startDir)
  {
    var currentDir := Path(startDir);
    while true
      invariant GitDirFrom(fs, currentDir) == FindGitDir(fs, startDir)
      decreases |currentDir|
    {
      var gitDir := GitPath(currentDir);
      match fs.access(gitDir) {
        case Found => return Some(gitDir);
        case Denied => return None;
        case Missing =>
      }
      var lastSlash := LastSlash(currentDir);
      if lastSlash.None? {
        return None;
      }
      currentDir := currentDir[..lastSlash.value];
    }
  }

  /******* The commit *******/

  predicate IsNewline(c: char) {
    c == '\n' || c == '\r'
  }

  /** What is left without the newlines at the end. */
  function Stripped(s: string): (r: string)
    ensures r <= s && (r != [] ==> !IsNewline(r[|r| - 1]))
    ensures forall k | |r| <= k < |s| :: IsNewline(s[k])
  {
    if s != [] && IsNewline(s[|s| - 1]) then Stripped(s[..|s| - 1]) else s
  }

  method RemoveTrailingNewline(s: string) returns (r: string)
    ensures r == Stripped(s)
  {
    var len := |s|;
    while len > 0 && IsNewline(s[len - 1])
      invariant 0 <= len <= |s| && Stripped(s[..len]) == Stripped(s)
    {
      assert s[..len][..len - 1] == s[..len - 1];
      len := len - 1;
    }
    r := s[..len];
  }

  /** The part of a buffer that C string functions see. */
  function UpToNul(s: string): (r: string)
    ensures r <= s && '\0' !in r
  {
    if s == [] || s[0] == '\0' then [] else [s[0]] + UpToNul(s[1..])
  }

  /** None for a file that is missing or empty; a file of newlines only reads as empty text. */
  function ReadGitFile(fs: FileSystem, path: string): Option<string> {
    var contents := fs.contents(path);
    if contents.None? || contents.value == [] then None
    else
      var buffer := if |contents.value| > READ_MAX then contents.value[..READ_MAX] else contents.value;
      Some(Stripped(UpToNul(buffer)))
  }

  const REF_PREFIX := "ref: "

  function CommitSha(fs: FileSystem, gitDir: string): Option<string> {
    var head := ReadGitFile(fs, Path(gitDir + "/HEAD"));
    if head.None? then None
    else if REF_PREFIX <= head.value then
      ReadGitFile(fs, Path(gitDir + "/" + head.value[|REF_PREFIX|..]))
    else head
  }

  /******* The repository URL *******/

  predicate OccursAt(s: string, pattern: string, i: nat) {
    i + |pattern| <= |s| && forall k | 0 <= k < |pattern| :: s[i + k] == pattern[k]
  }

  /** The first position of `pattern` from `i` on. */
  function IndexOf(s: string, pattern: string, i: nat): (r: Option<nat>)
    requires i <= |s|
    ensures r.Some? ==> i <= r.value && OccursAt(s, pattern, r.value)
    ensures forall k | i <= k <= |s| && OccursAt(s, pattern, k) :: r.Some? && r.value <= k
    decreases |s| - i
  {
    if OccursAt(s, pattern, i) then Some(i)
    else if i == |s| then None
    else IndexOf(s, pattern, i + 1)
  }

  const SCHEME_END := "://"

  /** Keeps the URL up to its scheme and what follows its first at sign. */
  function RemoveCredentials(url: string): string {
    var at, scheme := IndexOf(url, "@", 0), IndexOf(url, SCHEME_END, 0);
    if at.None? || scheme.None? then url
    else url[..scheme.value + |SCHEME_END|] + url[at.value + 1..]
  }

  lemma IndexIs(s: string, pattern: string, i: nat)
    requires i <= |s| && OccursAt(s, pattern, i) && forall k | 0 <= k < i :: !OccursAt(s, pattern, k)
    ensures IndexOf(s, pattern, 0) == Some(i)
  {
    hide OccursAt, IndexOf;
    var r := IndexOf(s, pattern, 0);
    assert r.Some? && OccursAt(s, pattern, r.value);
  }

  lemma UrlText(scheme: string, user: string, rest: string, k: nat)
    requires k < |scheme| + 3 + |user|
    ensures (scheme + SCHEME_END + user + "@" + rest)[k] ==
            if k < |scheme| then scheme[k]
            else if k < |scheme| + 3 then SCHEME_END[k - |scheme|]
            else user[k - |scheme| - 3]
  {
  }

  lemma SchemeIndex(scheme: string, user: string, rest: string)
    requires ':' !in scheme
    ensures IndexOf(scheme + SCHEME_END + user + "@" + rest, SCHEME_END, 0) == Some(|scheme|)
  {
    var url := scheme + SCHEME_END + user + "@" + rest;
    forall k | 0 <= k < |scheme| ensures !OccursAt(url, SCHEME_END, k) {
      UrlText(scheme, user, rest, k);
      assert scheme[k] in scheme && url[k + 0] != SCHEME_END[0];
    }
    assert OccursAt(url, SCHEME_END, |scheme|);
    IndexIs(url, SCHEME_END, |scheme|);
  }

  lemma AtIndex(scheme: string, user: string, rest: string)
    requires '@' !in scheme && '@' !in user
    ensures IndexOf(scheme + SCHEME_END + user + "@" + rest, "@", 0) == Some(|scheme| + 3 + |user|)
  {
    var url := scheme + SCHEME_END + user + "@" + rest;
    forall k | 0 <= k < |scheme| + 3 + |user| ensures !OccursAt(url, "@", k) {
      UrlText(scheme, user, rest, k);
      assert url[k + 0] != "@"[0];
    }
    assert OccursAt(url, "@", |scheme| + 3 + |user|);
    IndexIs(url, "@", |scheme| + 3 + |user|);
  }

  /** Credentials after the scheme are removed, and nothing else. */
  lemma CredentialsAreRemoved(scheme: string, user: string, rest: string)
    requires ':' !in scheme && '@' !in scheme && '@' !in user
    ensures RemoveCredentials(scheme + SCHEME_END + user + "@" + rest) == scheme + SCHEME_END + rest
  {
    SchemeIndex(scheme, user, rest);
    AtIndex(scheme, user, rest);
    hide IndexOf;
    var url := scheme + SCHEME_END + user + "@" + rest;
    assert url[..|scheme| + 3] == scheme + SCHEME_END;
    assert url[|scheme| + 3 + |user| + 1..] == rest;
  }

  /** A URL without an at sign, or without a scheme, is returned as it is. */
  lemma NothingToRemove(url: string)
    requires '@' !in url || forall k | 0 <= k <= |url| :: !OccursAt(url, SCHEME_END, k)
    ensures RemoveCredentials(url) == url
  {
    forall k: nat | OccursAt(url, "@", k) ensures k < |url| && url[k] == '@' {
      assert url[k + 0] == "@"[0];
    }
  }

  /******* The cache *******/

  datatype Entry = Entry(commit: Option<string>, repository: Option<string>)

  type Cache = map<string, Entry>

  /** The entry of `cwd` after a refresh; None once it is deleted. */
  function Refreshed(fs: FileSystem, cwd: string, entry: Entry): Option<Entry> {
    var gitDir := FindGitDir(fs, cwd);
    if gitDir.None? then None
    else Reread(entry, CommitSha(fs, gitDir.value), fs.originUrl(gitDir.value))
  }

  /** A new commit replaces the entry, a commit that is gone deletes it. */
  function Reread(entry: Entry, sha: Option<string>, url: Option<string>): Option<Entry> {
    if sha == entry.commit then Some(entry)
    else if sha.Some? then Some(Entry(sha, url))
    else None
  }

  function Update(fs: FileSystem, cache: Cache): Cache {
    map cwd | cwd in cache && Refreshed(fs, cwd, cache[cwd]).Some? :: Refreshed(fs, cwd, cache[cwd]).value
  }

  function NonEmpty(s: Option<string>): Option<string> {
    if s.Some? && s.value == [] then None else s
  }

  /** What a request returns of an entry. */
  function Answer(e: Entry): Entry {
    Entry(e.commit, if e.repository.Some? then Some(RemoveCredentials(e.repository.value)) else None)
  }

  /** What a lookup without a cache reads. */
  function ReadFresh(fs: FileSystem, cwd: string): Entry {
    var gitDir := FindGitDir(fs, cwd);
    if gitDir.None? then Entry(None, None)
    else Entry(NonEmpty(CommitSha(fs, gitDir.value)), NonEmpty(fs.originUrl(gitDir.value)))
  }

  /** The metadata a request for `cwd` gets; the repository is cached with its credentials. */
  function Request(fs: FileSystem, cache: Cache, cwd: string): (Entry, Cache) {
    var updated := Update(fs, cache);
    if cwd in updated then (Answer(updated[cwd]), updated)
    else
      var e := ReadFresh(fs, cwd);
      (Answer(e), if e == Entry(None, None) then updated else updated[cwd := e])
  }

  /** The commit file of `cwd` can be read but holds no text. */
  predicate BlankCommit(fs: FileSystem, cwd: string) {
    var gitDir := FindGitDir(fs, cwd);
    gitDir.Some? && CommitSha(fs, gitDir.value) == Some([])
  }

  /**
   Whatever the cache holds, a request returns the commit an empty cache would return,
   except exactly for a cached directory whose commit file is blank.
   */
  lemma CommitIsTransparentIff(fs: FileSystem, cache: Cache, cwd: string)
    ensures Request(fs, cache, cwd).0.commit == Request(fs, map[], cwd).0.commit
            <==> !(cwd in cache && BlankCommit(fs, cwd))
  {
    assert Update(fs, map[]) == map[];
  }

  /** The refresh of a cached entry finds the commit it already has, or still finds none. */
  predicate Unchanged(fs: FileSystem, cwd: string, entry: Entry) {
    var gitDir := FindGitDir(fs, cwd);
    gitDir.Some? && CommitSha(fs, gitDir.value) == entry.commit
  }

  predicate CommitChanged(fs: FileSystem, cwd: string, entry: Entry) {
    var gitDir := FindGitDir(fs, cwd);
    gitDir.Some? && CommitSha(fs, gitDir.value).Some? && CommitSha(fs, gitDir.value) != entry.commit
  }

  /**
   The repository URL is read again only with a new commit: the URL returned agrees with a
   fresh read exactly when an unchanged entry holds the current URL up to credentials and a
   URL read again is not empty.
   */
  lemma RepositoryIsTransparentIff(fs: FileSystem, cache: Cache, cwd: string)
    requires cwd in cache
    ensures Request(fs, cache, cwd).0.repository == Request(fs, map[], cwd).0.repository
            <==> && (Unchanged(fs, cwd, cache[cwd]) ==>
                       Answer(cache[cwd]).repository == Answer(ReadFresh(fs, cwd)).repository)
                 && (CommitChanged(fs, cwd, cache[cwd]) ==> fs.originUrl(FindGitDir(fs, cwd).value) != Some([]))
  {
    assert Update(fs, map[]) == map[];
  }

  /******* Histories of requests *******/

  function CacheAfter(cache: Cache, requests: seq<(FileSystem, string)>): Cache
    decreases |requests|
  {
    if requests == [] then cache
    else CacheAfter(Request(requests[0].0, cache, requests[0].1).1, requests[1..])
  }

  /**
   After any history of file-system states and requests, a request whose commit file is not
   blank returns the commit on disk.
   */
  lemma HistoryIsTransparent(requests: seq<(FileSystem, string)>, fs: FileSystem, cwd: string)
    requires !BlankCommit(fs, cwd)
    ensures Request(fs, CacheAfter(map[], requests), cwd).0.commit == ReadFresh(fs, cwd).commit
  {
    CommitIsTransparentIff(fs, CacheAfter(map[], requests), cwd);
    assert Update(fs, map[]) == map[];
  }

  /** A file system with one git directory everywhere, its commit file and its origin URL. */
  function OneRepository(head: string, url: string): FileSystem {
    FileSystem(_ => Found, _ => Some(head), _ => Some(url))
  }

  lemma CommitOfOne(head: string, url: string, cwd: string)
    requires 0 < |head| < |REF_PREFIX| && '\0' !in head
    ensures var fs := OneRepository(head, url);
            && FindGitDir(fs, cwd) == Some(GitPath(Path(cwd)))
            && CommitSha(fs, GitPath(Path(cwd))) == Some(Stripped(head))
            && fs.originUrl(GitPath(Path(cwd))) == Some(url)
  {
    NoNul(head);
  }

  lemma {:induction false} NoNul(s: string)
    requires '\0' !in s
    ensures UpToNul(s) == s
  {
    if s != [] {
      NoNul(s[1..]);
    }
  }

  /**
   A commit file that was readable and now holds only a newline: the first request caches
   the directory, and the second answers with an empty commit where a fresh read has none.
   */
  lemma BlankCommitIsReturned(url: string, cwd: string)
    requires url != ""
    ensures var before, now := OneRepository("c", url), OneRepository("\n", url);
            var cache := CacheAfter(map[], [(before, cwd)]);
            && cwd in cache && BlankCommit(now, cwd)
            && Request(now, cache, cwd).0.commit == Some("") && Request(now, map[], cwd).0.commit == None
  {
    var before, now := OneRepository("c", url), OneRepository("\n", url);
    assert Stripped("\n") == "" && Stripped("c") == "c";
    FirstRequest("c", url, cwd);
    CommitOfOne("\n", url, cwd);
    assert Update(now, map[]) == map[];
  }

  lemma FirstRequest(head: string, url: string, cwd: string)
    requires 0 < |head| < |REF_PREFIX| && '\0' !in head && Stripped(head) != "" && url != ""
    ensures CacheAfter(map[], [(OneRepository(head, url), cwd)])
            == map[cwd := Entry(Some(Stripped(head)), Some(url))]
  {
    CommitOfOne(head, url, cwd);
    hide OneRepository, FindGitDir, CommitSha, Stripped, GitPath, Path, CacheAfter;
    FirstCached(OneRepository(head, url), cwd, Entry(Some(Stripped(head)), Some(url)));
  }

  lemma FirstCached(fs: FileSystem, cwd: string, e: Entry)
    requires ReadFresh(fs, cwd) == e && e != Entry(None, None)
    ensures CacheAfter(map[], [(fs, cwd)]) == map[cwd := e]
  {
    hide ReadFresh, Refreshed, Answer;
    assert Update(fs, map[]) == map[];
    assert Request(fs, map[], cwd).1 == map[cwd := e];
    assert [(fs, cwd)][1..] == [];
    assert CacheAfter(map[cwd := e], []) == map[cwd := e];
  }

  /**
   An origin URL that changes with the commit unchanged: the second request answers with
   the old URL, which differs from the current one beyond credentials.
   */
  lemma StaleRepositoryIsReturned(was: string, url: string, cwd: string)
    requires was != "" && url != "" && RemoveCredentials(was) != RemoveCredentials(url)
    ensures var before, now := OneRepository("c", was), OneRepository("c", url);
            var cache := CacheAfter(map[], [(before, cwd)]);
            && Request(now, cache, cwd).0.repository == Some(RemoveCredentials(was))
            && Request(now, map[], cwd).0.repository == Some(RemoveCredentials(url))
  {
    hide RemoveCredentials;
    var now := OneRepository("c", url);
    assert Stripped("c") == "c";
    FirstRequest("c", was, cwd);
    CommitOfOne("c", url, cwd);
    assert Update(now, map[]) == map[];
  }

  /******* The commit from the files *******/

  /** A file that starts with `text`, goes on with newlines only and may hold anything after a NUL. */
  ghost predicate Holds(file: Option<string>, text: string) {
    exists newlines, rest :: Consists(file, text, newlines, rest)
  }

  predicate Consists(file: Option<string>, text: string, newlines: string, rest: string) {
    && file == Some(text + newlines + rest)
    && 0 < |text + newlines + rest| <= 255
    && '\0' !in text && (text != "" ==> text[|text| - 1] != '\n' && text[|text| - 1] != '\r')
    && (forall c | c in newlines :: c == '\n' || c == '\r')
    && (rest != "" ==> rest[0] == '\0')
  }

  lemma {:induction false} UpToNulIs(s: string, rest: string)
    requires '\0' !in s && (rest != "" ==> rest[0] == '\0')
    ensures UpToNul(s + rest) == s
  {
    if s == "" {
      assert s + rest == rest;
    } else {
      assert (s + rest)[1..] == s[1..] + rest;
      UpToNulIs(s[1..], rest);
    }
  }

  lemma {:induction false} StrippedIs(text: string, newlines: string)
    requires text != "" ==> !IsNewline(text[|text| - 1])
    requires forall c | c in newlines :: IsNewline(c)
    ensures Stripped(text + newlines) == text
    decreases |newlines|
  {
    if newlines == "" {
      assert text + newlines == text;
    } else {
      var last := |newlines| - 1;
      assert newlines[last] in newlines;
      assert (text + newlines)[..|text + newlines| - 1] == text + newlines[..last];
      StrippedIs(text, newlines[..last]);
    }
  }

  lemma ReadsText(fs: FileSystem, path: string, text: string)
    requires Holds(fs.contents(path), text)
    ensures ReadGitFile(fs, path) == Some(text)
  {
    var newlines, rest :| Consists(fs.contents(path), text, newlines, rest);
    assert text + newlines + rest == (text + newlines) + rest;
    UpToNulIs(text + newlines, rest);
    StrippedIs(text, newlines);
  }

  /** The git directory of `cwd` is its own and its paths fit. */
  predicate HasGitDir(fs: FileSystem, cwd: string, name: string) {
    fs.access(cwd + "/.git").Found? && |cwd| + |"/.git"| + |"/HEAD"| < 4096 && |cwd| + |"/.git/"| + |name| < 4096
  }

  lemma OwnGitDir(fs: FileSystem, cwd: string, name: string)
    requires HasGitDir(fs, cwd, name)
    ensures FindGitDir(fs, cwd) == Some(cwd + "/.git")
    ensures Path(cwd + "/.git" + "/HEAD") == cwd + "/.git" + "/HEAD"
    ensures Path(cwd + "/.git" + "/" + name) == cwd + "/.git" + "/" + name
  {
  }

  /** A longer directory is searched from its 4095th character. */
  lemma LongDirectoryIsCut(fs: FileSystem, cwd: string)
    requires |cwd| >= 4096
    ensures FindGitDir(fs, cwd) == FindGitDir(fs, cwd[..4095])
  {
    hide GitDirFrom;
  }

  lemma CommitAfterHistory(requests: seq<(FileSystem, string)>, fs: FileSystem, cwd: string, commit: Option<string>)
    requires FindGitDir(fs, cwd) == Some(cwd + "/.git")
    requires CommitSha(fs, cwd + "/.git") == commit && commit != Some("")
    ensures Request(fs, CacheAfter(map[], requests), cwd).0.commit == commit
  {
    HistoryIsTransparent(requests, fs, cwd);
    hide FindGitDir, CommitSha, CacheAfter, Request;
  }

  /**
   A checked-out branch: HEAD names a ref, and after any history of requests the commit
   returned is the text of the ref's file.
   */
  lemma BranchCommit(requests: seq<(FileSystem, string)>, fs: FileSystem, cwd: string, name: string, sha: string)
    requires HasGitDir(fs, cwd, name) && sha != ""
    requires Holds(fs.contents(cwd + "/.git" + "/HEAD"), "ref: " + name)
    requires Holds(fs.contents(cwd + "/.git" + "/" + name), sha)
    ensures Request(fs, CacheAfter(map[], requests), cwd).0.commit == Some(sha)
  {
    hide Holds, ReadGitFile, FindGitDir, Path, CacheAfter, Request;
    OwnGitDir(fs, cwd, name);
    var git := cwd + "/.git";
    ReadsText(fs, git + "/HEAD", "ref: " + name);
    ReadsText(fs, git + "/" + name, sha);
    assert ("ref: " + name)[5..] == name && "ref: " <= "ref: " + name;
    CommitAfterHistory(requests, fs, cwd, Some(sha));
  }

  /** A branch without commits: its ref has no file, or an empty one, and no commit is returned. */
  lemma UnbornBranch(requests: seq<(FileSystem, string)>, fs: FileSystem, cwd: string, name: string)
    requires HasGitDir(fs, cwd, name) && Holds(fs.contents(cwd + "/.git" + "/HEAD"), "ref: " + name)
    requires fs.contents(cwd + "/.git" + "/" + name) == None || fs.contents(cwd + "/.git" + "/" + name) == Some("")
    ensures Request(fs, CacheAfter(map[], requests), cwd).0.commit == None
  {
    hide Holds, FindGitDir, Path, CacheAfter, Request;
    OwnGitDir(fs, cwd, name);
    var git := cwd + "/.git";
    ReadsText(fs, git + "/HEAD", "ref: " + name);
    assert ReadGitFile(fs, git + "/" + name) == None;
    assert ("ref: " + name)[5..] == name && "ref: " <= "ref: " + name;
    CommitAfterHistory(requests, fs, cwd, None);
  }

  /** A detached HEAD: its own text is the commit. */
  lemma DetachedCommit(requests: seq<(FileSystem, string)>, fs: FileSystem, cwd: string, sha: string)
    requires HasGitDir(fs, cwd, "") && sha != "" && !("ref: " <= sha)
    requires Holds(fs.contents(cwd + "/.git" + "/HEAD"), sha)
    ensures Request(fs, CacheAfter(map[], requests), cwd).0.commit == Some(sha)
  {
    hide Holds, ReadGitFile, FindGitDir, Path, CacheAfter, Request;
    OwnGitDir(fs, cwd, "");
    ReadsText(fs, cwd + "/.git" + "/HEAD", sha);
    CommitAfterHistory(requests, fs, cwd, Some(sha));
  }

  /** A HEAD that cannot be read, or is empty, gives no commit. */
  lemma NoHead(requests: seq<(FileSystem, string)>, fs: FileSystem, cwd: string)
    requires HasGitDir(fs, cwd, "")
    requires fs.contents(cwd + "/.git" + "/HEAD") == None || fs.contents(cwd + "/.git" + "/HEAD") == Some("")
    ensures Request(fs, CacheAfter(map[], requests), cwd).0.commit == None
  {
    hide FindGitDir, Path, CacheAfter, Request;
    OwnGitDir(fs, cwd, "");
    CommitAfterHistory(requests, fs, cwd, None);
  }

  /** A longer file counts up to its 255th character. */
  lemma LongHeadIsCut(requests: seq<(FileSystem, string)>, fs: FileSystem, cwd: string, head: string)
    requires HasGitDir(fs, cwd, "") && |head| > 255 && fs.contents(cwd + "/.git" + "/HEAD") == Some(head)
    requires '\0' !in head[..255] && !IsNewline(head[254]) && !("ref: " <= head)
    ensures Request(fs, CacheAfter(map[], requests), cwd).0.commit == Some(head[..255])
  {
    hide FindGitDir, Path, CacheAfter, Request;
    OwnGitDir(fs, cwd, "");
    var cut := head[..255];
    assert cut + "" == cut;
    UpToNulIs(cut, "");
    StrippedIs(cut, "");
    assert "ref: " <= cut ==> "ref: " <= head;
    CommitAfterHistory(requests, fs, cwd, Some(cut));
  }

  /******* The repository over histories *******/

  /** A request reads the URL of `cwd` for the cache: it sees a new commit, or it asks for `cwd` and caches it. */
  predicate ReadsUrl(cache: Cache, request: (FileSystem, string), cwd: string) {
    || (cwd in cache && CommitChanged(request.0, cwd, cache[cwd]))
    || (cwd == request.1 && cwd !in Update(request.0, cache) && ReadFresh(request.0, cwd) != Entry(None, None))
  }

  /** The URL on disk; a lookup that caches an entry takes an empty URL for none. */
  function UrlOnDisk(cache: Cache, fs: FileSystem, cwd: string): Option<string> {
    var gitDir := FindGitDir(fs, cwd);
    if gitDir.None? then None
    else if cwd in Update(fs, cache) then fs.originUrl(gitDir.value)
    else NonEmpty(fs.originUrl(gitDir.value))
  }

  /** The URL on disk at the last request of a history that read it. */
  function LastUrl(cache: Cache, requests: seq<(FileSystem, string)>, cwd: string, url: Option<string>): Option<string>
    decreases |requests|
  {
    if requests == [] then url
    else
      LastUrl(Request(requests[0].0, cache, requests[0].1).1, requests[1..], cwd,
              if ReadsUrl(cache, requests[0], cwd) then UrlOnDisk(cache, requests[0].0, cwd) else url)
  }

  lemma RequestTracksUrl(cache: Cache, request: (FileSystem, string), cwd: string, url: Option<string>)
    requires cwd in cache ==> cache[cwd].repository == url
    ensures var cache' := Request(request.0, cache, request.1).1;
            cwd in cache' ==>
              cache'[cwd].repository == if ReadsUrl(cache, request, cwd) then UrlOnDisk(cache, request.0, cwd) else url
  {
    hide FindGitDir, CommitSha, Answer;
  }

  lemma {:induction false} HistoryTracksUrl(cache: Cache, requests: seq<(FileSystem, string)>, cwd: string,
                                            url: Option<string>)
    requires cwd in cache ==> cache[cwd].repository == url
    ensures var cache' := CacheAfter(cache, requests);
            cwd in cache' ==> cache'[cwd].repository == LastUrl(cache, requests, cwd, url)
    decreases |requests|
  {
    hide Request, ReadsUrl, UrlOnDisk;
    if requests != [] {
      RequestTracksUrl(cache, requests[0], cwd, url);
      HistoryTracksUrl(Request(requests[0].0, cache, requests[0].1).1, requests[1..], cwd,
                       if ReadsUrl(cache, requests[0], cwd) then UrlOnDisk(cache, requests[0].0, cwd) else url);
    }
  }

  lemma {:induction false} OneRequestMore(cache: Cache, requests: seq<(FileSystem, string)>, r: (FileSystem, string))
    ensures CacheAfter(cache, requests + [r]) == Request(r.0, CacheAfter(cache, requests), r.1).1
    decreases |requests|
  {
    hide Request;
    if requests == [] {
      assert [] + [r] == [r] && [r][1..] == [];
    } else {
      assert (requests + [r])[1..] == requests[1..] + [r];
      OneRequestMore(Request(requests[0].0, cache, requests[0].1).1, requests[1..], r);
    }
  }

  lemma AnswerFromCache(fs: FileSystem, cache: Cache, cwd: string)
    ensures var (answer, cache') := Request(fs, cache, cwd);
            answer == if cwd in cache' then Answer(cache'[cwd]) else Entry(None, None)
  {
    hide FindGitDir, CommitSha, RemoveCredentials;
  }

  /**
   After any history, a request answers with the URL, without credentials, that was on disk
   at the last request that cached the directory or saw a new commit in it, or with nothing
   where nothing is cached.
   */
  lemma RepositoryIsLastRead(requests: seq<(FileSystem, string)>, fs: FileSystem, cwd: string)
    ensures var cache := CacheAfter(map[], requests);
            var (answer, cache') := Request(fs, cache, cwd);
            var url := LastUrl(map[], requests + [(fs, cwd)], cwd, None);
            if cwd in cache' then answer.repository == Answer(Entry(None, url)).repository
            else answer == Entry(None, None)
  {
    OneRequestMore(map[], requests, (fs, cwd));
    HistoryTracksUrl(map[], requests + [(fs, cwd)], cwd, None);
    AnswerFromCache(fs, CacheAfter(map[], requests), cwd);
    hide Request, LastUrl, CacheAfter, RemoveCredentials;
  }

  /** Cached entries never hold both an absent commit and an absent repository. */
  ghost predicate Informative(cache: Cache) {
    forall cwd :: cwd in cache ==> cache[cwd].commit.Some? || cache[cwd].repository.Some?
  }

  lemma {:induction false} HistoryIsInformative(cache: Cache, requests: seq<(FileSystem, string)>)
    requires Informative(cache)
    ensures Informative(CacheAfter(cache, requests))
    decreases |requests|
  {
    if requests != [] {
      HistoryIsInformative(Request(requests[0].0, cache, requests[0].1).1, requests[1..]);
    }
  }

  /******* The table updated in place *******/

  class GitMetadata {
    var cache: Cache

    constructor ()
      ensures cache == map[]
    {
      cache := map[];
    }

    method RefreshIfNeeded(fs: FileSystem, cwd: string)
      requires cwd in cache
      modifies this
      ensures cache == match Refreshed(fs, cwd, old(cache)[cwd])
                       case Some(entry) => old(cache)[cwd := entry]
                       case None => old(cache) - {cwd}
    {
      var gitDir := SearchGitDir(fs, cwd);
      if gitDir.None? {
        cache := cache - {cwd};
        return;
      }
      ReplaceOrDelete(cwd, CommitSha(fs, gitDir.value), fs.originUrl(gitDir.value));
    }

    method ReplaceOrDelete(cwd: string, sha: Option<string>, url: Option<string>)
      requires cwd in cache
      modifies this
      ensures cache == match Reread(old(cache)[cwd], sha, url)
                       case Some(entry) => old(cache)[cwd := entry]
                       case None => old(cache) - {cwd}
    {
      var entry := cache[cwd];
      if sha.Some? && entry.commit.Some? {
        if entry.commit.value != sha.value {
          cache := cache[cwd := Entry(sha, url)];
        }
      } else if sha.Some? {
        cache := cache[cwd := Entry(sha, url)];
      } else if entry.commit.Some? {
        cache := cache - {cwd};
      }
    }

    method UpdateAll(fs: FileSystem)
      modifies this
      ensures cache == Update(fs, old(cache))
    {
      var rest := cache.Keys;
      while rest != {}
        invariant rest <= cache.Keys && rest <= old(cache).Keys
        invariant forall k :: Lookup(cache, k) ==
                    if k in rest then Lookup(old(cache), k) else Lookup(Update(fs, old(cache)), k)
        decreases rest
      {
        var cwd :| cwd in rest;
        assert Lookup(cache, cwd) == Lookup(old(cache), cwd);
        RefreshIfNeeded(fs, cwd);
        rest := rest - {cwd};
      }
      SameLookups(cache, Update(fs, old(cache)));
    }

    method Get(fs: FileSystem, cwd: string) returns (commit: Option<string>, repository: Option<string>)
      modifies this
      ensures (Entry(commit, repository), cache) == Request(fs, old(cache), cwd)
      ensures !BlankCommit(fs, cwd) ==> commit == ReadFresh(fs, cwd).commit
    {
      CommitIsTransparentIff(fs, cache, cwd);
      assert Update(fs, map[]) == map[];
      UpdateAll(fs);
      if cwd in cache {
        return cache[cwd].commit, Answer(cache[cwd]).repository;
      }
      commit, repository := None, None;
      var gitDir := SearchGitDir(fs, cwd);
      if gitDir.Some? {
        var raw := Entry(NonEmpty(CommitSha(fs, gitDir.value)), NonEmpty(fs.originUrl(gitDir.value)));
        if raw.commit.Some? || raw.repository.Some? {
          commit, repository := raw.commit, Answer(raw).repository;
          cache := cache[cwd := raw];
        }
      }
    }
  }
}