/**
 internal/imageref/imageref.go prints image references and internal/api/handlers_adhoc.go parses them.
 url.Parse is not part of this model: `hostOf` gives the host of a URL, or None when there is none.
 */
module ImageRef {
  import opened Wrappers
  import opened Text

  predicate IsSlash(c: char) {
    c == '/'
  }

  // ---------------------------------------------------------------- the printer

  function WithScheme(url: string): string {
    var raw := TrimSpace(url);
    if Contains(raw, "://") then raw else "https://" + raw
  }

  function CleanRepository(repository: string): string {
    Trim(TrimSpace(repository), IsSlash)
  }

  function BuildImagePullRef(registryUrl: string, repository: string, tag: string, hostOf: string -> Option<string>)
    : string
  {
    var repo, t := CleanRepository(repository), TrimSpace(tag);
    match hostOf(WithScheme(registryUrl))
    case None => if repo == "" then t else repo + ":" + t
    case Some(host) => host + "/" + repo + ":" + t
  }

  // ---------------------------------------------------------------- the parser

  datatype Reference = Reference(host: string, repository: string, tag: string)

  predicate RegistryLike(host: string) {
    '.' in host || ':' in host || host == "localhost"
  }

  /** The host and repository of a reference whose tag has been cut off. */
  function ParseName(name: string): (string, string) {
    var slash := Index(name, '/');
    var registry := slash.Some? && RegistryLike(name[..slash.value]);
    var host := if registry then name[..slash.value] else "docker.io";
    var repo := if registry then name[slash.value + 1..] else if slash.Some? then name else "library/" + name;
    (host, if host == "docker.io" && '/' !in repo then "library/" + repo else repo)
  }

  function ParseImageRef(reference: string): Reference {
    var trimmed := TrimSpace(reference);
    var colon := LastIndex(trimmed, ':');
    var tag := if colon.Some? then trimmed[colon.value + 1..] else "latest";
    var name := ParseName(if colon.Some? then trimmed[..colon.value] else trimmed);
    Reference(name.0, name.1, tag)
  }

  // ---------------------------------------------------------------- what is printed

  lemma PrefixOrLater(s: string, a: string, sub: string, b: string)
    requires s == a + sub + b
    ensures sub <= s || (a != "" && s[1..] == a[1..] + sub + b)
  {
    if a == "" {
      assert s == sub + b;
    }
  }

  lemma {:induction false} ContainsIff(s: string, sub: string)
    ensures Contains(s, sub) <==> exists a, b :: s == a + sub + b
  {
    if sub <= s {
      assert s == "" + sub + s[|sub|..];
    }
    if s != "" {
      ContainsIff(s[1..], sub);
      if Contains(s[1..], sub) {
        var a, b :| s[1..] == a + sub + b;
        assert s == ([s[0]] + a) + sub + b;
      }
    }
    forall a, b | s == a + sub + b ensures Contains(s, sub) {
      PrefixOrLater(s, a, sub, b);
    }
  }

  /** The text has a scheme in it. */
  ghost predicate HasScheme(url: string) {
    exists a, b :: url == a + "://" + b
  }

  lemma SchemeAdded(url: string, raw: string)
    requires Framed(url, raw) && Trimmed(raw, IsSpace)
    ensures WithScheme(url) == if HasScheme(raw) then raw else "https://" + raw
  {
    hide TrimSpace, Framed, Trimmed;
    TrimSpaceIff(url, raw);
    ContainsIff(raw, "://");
  }

  predicate Slashes(s: string) {
    forall i :: 0 <= i < |s| ==> s[i] == '/'
  }

  lemma RepositoryCleaned(text: string, left: string, repo: string, right: string)
    requires Framed(text, left + repo + right) && Slashes(left) && Slashes(right)
    requires Trimmed(repo, IsSpace) && Trimmed(repo, IsSlash)
    ensures CleanRepository(text) == repo
  {
    assert !IsSpace('/');
    hide IsSpace, Trim, Framed;
    var s := left + repo + right;
    if s != "" {
      assert s[0] == if left != "" then left[0] else if repo != "" then repo[0] else right[0];
      assert s[|s| - 1] ==
        if right != "" then right[|right| - 1] else if repo != "" then repo[|repo| - 1] else left[|left| - 1];
    }
    TrimSpaceIff(text, s);
    TrimFrame(left, repo, right, IsSlash);
  }

  /**
   What a pull reference says: the host of the URL, to which a missing scheme is added, the repository without white
   space and slashes around it, and the tag without white space around it.
   */
  lemma PullRefOf(registryUrl: string, raw: string, repository: string, left: string, repo: string, right: string,
                  tag: string, t: string, hostOf: string -> Option<string>)
    requires Framed(registryUrl, raw) && Trimmed(raw, IsSpace)
    requires Framed(repository, left + repo + right) && Slashes(left) && Slashes(right)
    requires Trimmed(repo, IsSpace) && Trimmed(repo, IsSlash)
    requires Framed(tag, t) && Trimmed(t, IsSpace)
    ensures
      var host := hostOf(if HasScheme(raw) then raw else "https://" + raw);
      BuildImagePullRef(registryUrl, repository, tag, hostOf) ==
        if host.Some? then host.value + "/" + repo + ":" + t
        else if repo == "" then t
        else repo + ":" + t
  {
    SchemeAdded(registryUrl, raw);
    RepositoryCleaned(repository, left, repo, right);
    hide WithScheme, CleanRepository, TrimSpace, Framed, HasScheme, Trimmed, Slashes;
    TrimSpaceIff(tag, t);
  }

  // ---------------------------------------------------------------- round trips

  /** What every host of a parsed URL satisfies. */
  predicate UrlHost(host: string) {
    host != "" && '/' !in host
  }

  /** What trimming leaves alone at the end of a text. */
  predicate TrimmedEnd(s: string) {
    s == "" || !IsSpace(s[|s| - 1])
  }

  /** In front of a trimmed tag only the left edge of the name can be trimmed. */
  lemma TaggedTrim(name: string, tag: string)
    requires TrimmedEnd(tag)
    ensures TrimSpace(name + ":" + tag) == TrimLeft(name, IsSpace) + ":" + tag
  {
    var rest := ":" + tag;
    assert rest[|rest| - 1] == if tag == "" then ':' else tag[|tag| - 1];
    assert !IsSpace(':');
    hide TrimLeft, Trim, IsSpace;
    TrimBefore(name, rest, IsSpace);
    ColonBetween(name, tag);
    ColonBetween(TrimLeft(name, IsSpace), tag);
  }

  lemma ColonBetween(a: string, b: string)
    ensures a + (":" + b) == a + ":" + b
  {
  }

  lemma ParseSplit(reference: string, name: string, tag: string)
    requires TrimSpace(reference) == name + ":" + tag && ':' !in tag
    ensures ParseImageRef(reference) == Reference(ParseName(name).0, ParseName(name).1, tag)
  {
    hide TrimSpace, LastIndex, ParseName;
    FinalIndex(name, ':', tag);
    var s := name + ":" + tag;
    assert s[..|name|] == name && s[|name| + 1..] == tag;
  }

  /** A colon-free tag is read back, and the name before it is parsed on its own. */
  lemma ParseTagged(name: string, tag: string)
    requires TrimmedEnd(tag) && ':' !in tag
    ensures
      var p := ParseName(TrimLeft(name, IsSpace));
      ParseImageRef(name + ":" + tag) == Reference(p.0, p.1, tag)
  {
    TaggedTrim(name, tag);
    hide *;
    ParseSplit(name + ":" + tag, TrimLeft(name, IsSpace), tag);
  }

  /** What the parser makes of the name part of a printed reference. */
  lemma PrintedName(host: string, repo: string)
    requires UrlHost(host)
    ensures
      var p := ParseName(host + "/" + repo);
      && p.0 == (if RegistryLike(host) then host else "docker.io")
      && (RegistryLike(host) ==> p.1 == if host == "docker.io" && '/' !in repo then "library/" + repo else repo)
  {
    hide Index, IsSpace, RegistryLike;
    var name := host + "/" + repo;
    FirstIndex(host, '/', repo);
    assert name[..|host|] == host && name[|host| + 1..] == repo;
  }

  lemma ParsePrinted(host: string, repo: string, tag: string)
    requires UrlHost(host) && !IsSpace(host[0]) && Trimmed(tag, IsSpace) && ':' !in tag
    ensures
      var p := ParseImageRef(host + "/" + repo + ":" + tag);
      && p.tag == tag
      && p.host == (if RegistryLike(host) then host else "docker.io")
      && (RegistryLike(host) ==>
            p.repository == if host == "docker.io" && '/' !in repo then "library/" + repo else repo)
  {
    hide ParseImageRef, ParseName, RegistryLike, IsSpace;
    var name := host + "/" + repo;
    assert name[0] == host[0];
    assert TrimLeft(name, IsSpace) == name;
    ParseTagged(name, tag);
    PrintedName(host, repo);
  }

  lemma LastIndexFrom(s: string, c: char, k: nat)
    requires k < |s| && s[k] == c
    ensures LastIndex(s, c).Some? && k <= LastIndex(s, c).value < |s|
  {
    hide LastIndex;
  }

  lemma TagBehindColon(reference: string, k: nat)
    requires var s := TrimSpace(reference); k < |s| && s[k] == ':'
    ensures |ParseImageRef(reference).tag| < |TrimSpace(reference)| - k
  {
    hide TrimSpace, ParseName, LastIndex;
    LastIndexFrom(TrimSpace(reference), ':', k);
  }

  lemma ColonAt(name: string, tag: string, k: nat)
    requires k < |tag|
    ensures (name + ":" + tag)[|name| + 1 + k] == tag[k]
  {
  }

  /** A tag with a colon is cut at its last colon. */
  lemma ColonTagIsCut(name: string, tag: string)
    requires TrimmedEnd(tag) && ':' in tag
    ensures |ParseImageRef(name + ":" + tag).tag| < |tag|
  {
    TaggedTrim(name, tag);
    hide *;
    var k := LastIndex(tag, ':').value;
    ColonAt(TrimLeft(name, IsSpace), tag, k);
    TagBehindColon(name + ":" + tag, |TrimLeft(name, IsSpace)| + 1 + k);
  }

  lemma TrimKeepsPrefix(s: string, cut: char -> bool)
    requires s != "" && !cut(s[0])
    ensures var r := Trim(s, cut); 0 < |r| <= |s| && r == s[..|r|] && forall i :: |r| <= i < |s| ==> cut(s[i])
  {
  }

  lemma CleanKeepsPrefix(s: string)
    requires s != "" && !IsSpace(s[0]) && s[0] != '/'
    ensures
      var r := CleanRepository(s);
      0 < |r| <= |s| && r == s[..|r|] && forall i :: |r| <= i < |s| ==> IsSpace(s[i]) || s[i] == '/'
  {
    hide Trim, IsSpace;
    TrimKeepsPrefix(s, IsSpace);
    TrimKeepsPrefix(TrimSpace(s), IsSlash);
  }

  /** Cleaning leaves a leading "library/" alone, so the prefix the parser adds is never taken for the original. */
  lemma LibraryIsNotCleaned(repository: string)
    ensures '/' !in CleanRepository(repository) ==> repository != "library/" + CleanRepository(repository)
  {
    hide CleanRepository, IsSpace;
    var repo := CleanRepository(repository);
    if '/' !in repo && "library/" <= repository {
      assert repository[0] == 'l' && repository[6] == 'y' && repository[7] == '/';
      LettersAreNotSpace();
      CleanKeepsPrefix(repository);
      assert forall i :: 0 <= i < |repo| ==> repo[i] == repository[i];
      assert repo[0] == 'l';
      assert |repository| > 8 ==> IsSpace(repository[8]) || repository[8] == '/';
    }
  }

  lemma LettersAreNotSpace()
    ensures forall c :: 'a' <= c <= 'z' ==> !IsSpace(c)
  {
  }

  /**
   The parser undoes the printer on an image of a registry whose URL has a host exactly when the host looks like a
   registry and does not begin with white space, the tag is trimmed and has no colon, the repository is clean, and it
   is not a one-segment docker.io name.
   */
  lemma ParseBuildIff(registryUrl: string, host: string, repository: string, tag: string,
      hostOf: string -> Option<string>)
    requires hostOf(WithScheme(registryUrl)) == Some(host) && UrlHost(host)
    ensures ParseImageRef(BuildImagePullRef(registryUrl, repository, tag, hostOf)) == Reference(host, repository, tag)
      <==> && ('.' in host || ':' in host || host == "localhost") && !IsSpace(host[0])
           && ':' !in tag && TrimSpace(tag) == tag && CleanRepository(repository) == repository
           && !(host == "docker.io" && '/' !in repository)
  {
    var repo, t := CleanRepository(repository), TrimSpace(tag);
    TrimIsTrimmed(tag, IsSpace);
    ParsedShape(host + "/" + repo + ":" + t);
    assert |t| <= |tag|;
    hide ParseImageRef, CleanRepository, TrimSpace, IsSpace;
    if ':' in t {
      ColonTagIsCut(host + "/" + repo, t);
      assert t != tag || ':' in tag;
    } else if !IsSpace(host[0]) {
      ParsePrinted(host, repo, t);
      LibraryIsNotCleaned(repository);
    }
  }

  // ---------------------------------------------------------------- what the parser returns

  lemma ParsedName(name: string)
    requires name == "" || !IsSpace(name[0])
    ensures
      var (host, repo) := ParseName(name);
      UrlHost(host) && !IsSpace(host[0]) && RegistryLike(host) && (host == "docker.io" ==> '/' in repo)
  {
    LettersAreNotSpace();
    hide IsSpace, Index;
    assert "docker.io"[6] == '.' && forall repo :: ("library/" + repo)[7] == '/';
  }

  lemma TrimmedStart(s: string)
    ensures var t := TrimSpace(s); t == "" || !IsSpace(t[0])
  {
    TrimIsTrimmed(s, IsSpace);
  }

  /** Whatever the parser returns is a registry-like host that a URL can have, with a tag free of colons. */
  lemma ParsedShape(reference: string)
    ensures
      var p := ParseImageRef(reference);
      && UrlHost(p.host) && !IsSpace(p.host[0]) && RegistryLike(p.host)
      && ':' !in p.tag && (p.host == "docker.io" ==> '/' in p.repository)
  {
    var trimmed := TrimSpace(reference);
    TrimmedStart(reference);
    hide TrimSpace, IsSpace, LastIndex, ParseName, RegistryLike, UrlHost;
    var colon := LastIndex(trimmed, ':');
    ParsedName(if colon.Some? then trimmed[..colon.value] else trimmed);
  }

  /**
   Parse, print, parse: when the registry's URL has the parsed host, the printed form parses to the same reference
   exactly when the parsed repository and tag have nothing to trim.
   */
  lemma ParsePrintParseIff(reference: string, registryUrl: string, hostOf: string -> Option<string>)
    ensures
      var p := ParseImageRef(reference);
      hostOf(WithScheme(registryUrl)) == Some(p.host) ==>
        (ParseImageRef(BuildImagePullRef(registryUrl, p.repository, p.tag, hostOf)) == p
         <==> CleanRepository(p.repository) == p.repository && TrimSpace(p.tag) == p.tag)
  {
    hide ParseImageRef, BuildImagePullRef, CleanRepository, TrimSpace, UrlHost, WithScheme;
    ParsedShape(reference);
    var p := ParseImageRef(reference);
    if hostOf(WithScheme(registryUrl)) == Some(p.host) {
      ParseBuildIff(registryUrl, p.host, p.repository, p.tag, hostOf);
    }
  }

  /**
   Without a host the printer leaves the registry out. The tag is read back exactly when it has no colon and there is
   a repository before it (or it is the default); then the repository alone, trimmed on the left, gives the rest.
   */
  lemma ParseBuildWithoutHost(registryUrl: string, repository: string, tag: string, hostOf: string -> Option<string>)
    requires hostOf(WithScheme(registryUrl)).None?
    ensures
      var p := ParseImageRef(BuildImagePullRef(registryUrl, repository, tag, hostOf));
      var repo, t := CleanRepository(repository), TrimSpace(tag);
      && (p.tag == t <==> ':' !in t && (repo != "" || t == "latest"))
      && (':' !in t && repo != "" ==>
            var name := ParseName(TrimLeft(repo, IsSpace)); p == Reference(name.0, name.1, t))
  {
    hide TrimSpace, CleanRepository, WithScheme, IsSpace, TrimLeft, ParseName, ParseImageRef, TrimmedEnd;
    var repo, t := CleanRepository(repository), TrimSpace(tag);
    TrimTwice(tag);
    if repo == "" {
      BareTag(t);
    } else if ':' in t {
      ColonTagIsCut(repo, t);
    } else {
      ParseTagged(repo, t);
    }
  }

  lemma TrimTwice(s: string)
    ensures var t := TrimSpace(s); TrimSpace(t) == t && TrimmedEnd(t)
  {
    hide Trim, IsSpace;
    TrimIsTrimmed(s, IsSpace);
    TrimIsTrimmed(TrimSpace(s), IsSpace);
  }

  lemma BareTag(t: string)
    requires TrimSpace(t) == t
    ensures ParseImageRef(t).tag == t <==> t == "latest"
  {
    hide TrimSpace, ParseName;
    if ':' in t {
      assert |ParseImageRef(t).tag| < |t|;
      assert "latest"[0] == 'l' && ':' !in "latest";
    }
  }

  // ---------------------------------------------------------------- untagged references

  /** White space around a reference makes no difference. */
  lemma ParseTrims(reference: string)
    ensures ParseImageRef(TrimSpace(reference)) == ParseImageRef(reference)
  {
    TrimIsTrimmed(reference, IsSpace);
    TrimIsTrimmed(TrimSpace(reference), IsSpace);
    hide ParseName, LastIndex, Trim, IsSpace;
  }

  /** Without a colon the tag is "latest", and the whole reference is the name. */
  lemma ParseUntagged(name: string)
    requires ':' !in name && Trimmed(name, IsSpace)
    ensures ParseImageRef(name) == Reference(ParseName(name).0, ParseName(name).1, "latest")
  {
    TrimIsTrimmed(name, IsSpace);
    assert TrimSpace(name) == name;
    hide ParseName, TrimSpace, Trim, Trimmed, IsSpace, LastIndex;
  }

  lemma BareName(name: string)
    requires '/' !in name
    ensures ParseName(name) == ("docker.io", "library/" + name)
  {
    hide Index, RegistryLike;
    assert ("library/" + name)[7] == '/';
  }

  /** An untagged name without a slash is an official docker.io image. */
  lemma UntaggedBareName(name: string)
    requires ':' !in name && '/' !in name && Trimmed(name, IsSpace)
    ensures ParseImageRef(name) == Reference("docker.io", "library/" + name, "latest")
  {
    ParseUntagged(name);
    BareName(name);
  }

  /**
   An untagged reference is read as its host, its repository and "latest" exactly when the host looks like a registry
   and has no port, the repository has no colon, and it is not a one-segment docker.io name.
   */
  lemma ParseUntaggedIff(host: string, repo: string)
    requires UrlHost(host) && Trimmed(host + "/" + repo, IsSpace)
    ensures ParseImageRef(host + "/" + repo) == Reference(host, repo, "latest")
      <==> ('.' in host || host == "localhost") && ':' !in host && ':' !in repo
           && !(host == "docker.io" && '/' !in repo)
  {
    hide ParseImageRef, ParseName, IsSpace, LastIndex;
    var s := host + "/" + repo;
    if ':' in repo {
      ColonInRepository(host, repo);
    } else if ':' in host {
      ColonInHost(host, repo);
    } else {
      ParseUntagged(s);
      PrintedName(host, repo);
      DockerIsRegistryLike();
    }
  }

  /** The last colon of the repository is taken for the tag's, so the repository is cut short. */
  lemma ColonInRepository(host: string, repo: string)
    requires UrlHost(host) && Trimmed(host + "/" + repo, IsSpace) && ':' in repo
    ensures ParseImageRef(host + "/" + repo) != Reference(host, repo, "latest")
  {
    hide *;
    var i := LastIndex(repo, ':').value;
    var front, tag := repo[..i], repo[i + 1..];
    assert repo == front + ":" + tag;
    Regroup(host + "/", front, tag);
    SplitKeepsTrimmed(host + "/" + front, tag);
    ParseTagged(host + "/" + front, tag);
    PrintedName(host, front);
    DockerIsRegistryLike();
  }

  lemma DockerIsRegistryLike()
    ensures RegistryLike("docker.io")
  {
    assert "docker.io"[6] == '.';
  }

  lemma Regroup(a: string, b: string, c: string)
    ensures a + (b + ":" + c) == a + b + ":" + c
  {
  }

  /** The port's colon is taken for the tag's. */
  lemma ColonInHost(host: string, repo: string)
    requires UrlHost(host) && Trimmed(host + "/" + repo, IsSpace) && ':' in host && ':' !in repo
    ensures ParseImageRef(host + "/" + repo) != Reference(host, repo, "latest")
  {
    hide *;
    var i := LastIndex(host, ':').value;
    var name, port := host[..i], host[i + 1..];
    var tag := port + "/" + repo;
    assert host + "/" + repo == name + ":" + tag;
    assert tag[|port|] == '/' && '/' !in "latest";
    SplitKeepsTrimmed(name, tag);
    ParseTagged(name, tag);
  }

  lemma SplitKeepsTrimmed(name: string, tag: string)
    requires Trimmed(name + ":" + tag, IsSpace)
    ensures TrimLeft(name, IsSpace) == name && TrimmedEnd(tag)
  {
    var s := name + ":" + tag;
    assert name != "" ==> s[0] == name[0];
    assert tag != "" ==> s[|s| - 1] == tag[|tag| - 1];
  }

  /** Any untagged reference to a host with a port: what is in front of the port is read as a docker.io image. */
  lemma PortIsTakenForTag(name: string, port: string, repo: string)
    requires '/' !in name && ':' !in port && ':' !in repo && Trimmed(name + ":" + (port + "/" + repo), IsSpace)
    ensures ParseImageRef(name + ":" + (port + "/" + repo))
      == Reference("docker.io", "library/" + name, port + "/" + repo)
  {
    hide *;
    SplitKeepsTrimmed(name, port + "/" + repo);
    ParseTagged(name, port + "/" + repo);
    BareName(name);
  }
}
