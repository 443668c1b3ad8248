/**
 The local registry of git repositories: a file with a list of aliases and a `Default` slot
 that repeats the entry of the alias "default".
 */
module GitRepos {
  import opened Text

  datatype Repo = Repo(url: string, alias: string)

  datatype Config = Config(default: Repo, repos: seq<Repo>)

  const NO_REPO := Repo("", "")
  const EMPTY := Config(NO_REPO, [])
  const DEFAULT_ALIAS := "default"

  /** What the file holds: nothing, a configuration, or text that does not parse. */
  datatype Content = Blank | Holding(config: Config) | Damaged

  /** How a rewrite of the file ends; it is emptied before the new text is written. */
  datatype Rewrite = Written | NotTruncated | NothingWritten | PartlyWritten

  datatype Outcome = Added | AliasTaken | DefaultTaken | Removed | NothingRegistered | NotFound
    | LoadFailed | RemoteFailed | OverwriteFailed

  function Load(content: Content): Option<Config> {
    match content
    case Blank => Some(EMPTY)
    case Holding(config) => Some(config)
    case Damaged => None
  }

  function Rewritten(content: Content, config: Config, rewrite: Rewrite): Content {
    match rewrite
    case Written => Holding(config)
    case NotTruncated => content
    case NothingWritten => Blank
    case PartlyWritten => Damaged
  }

  /** The first entry with an alias, or the length of the list. */
  function IndexOf(repos: seq<Repo>, alias: string): (i: nat)
    ensures i <= |repos|
    ensures i < |repos| ==> repos[i].alias == alias
    ensures forall j | 0 <= j < i :: repos[j].alias != alias
  {
    if repos == [] || repos[0].alias == alias then 0 else 1 + IndexOf(repos[1..], alias)
  }

  predicate Listed(repos: seq<Repo>, alias: string) {
    IndexOf(repos, alias) < |repos|
  }

  function Registered(config: Config, alias: string, url: string): Config {
    var repo := Repo(url, alias);
    Config(if alias == DEFAULT_ALIAS then repo else config.default, config.repos + [repo])
  }

  function Without(repos: seq<Repo>, i: nat): (rest: seq<Repo>)
    requires i < |repos|
    ensures |rest| == |repos| - 1
    ensures forall j | 0 <= j < |rest| :: rest[j] == repos[if j < i then j else j + 1]
  {
    repos[..i] + repos[i + 1..]
  }

  function Unregistered(config: Config, alias: string): Config
    requires Listed(config.repos, alias)
  {
    var i := IndexOf(config.repos, alias);
    Config(if alias == DEFAULT_ALIAS then NO_REPO else config.default, Without(config.repos, i))
  }

  /** The register command; `created` is the URL the server answers with. */
  function RegisterStep(content: Content, alias: string, created: Option<string>, rewrite: Rewrite)
    : (Content, Outcome)
  {
    match Load(content)
    case None => (content, LoadFailed)
    case Some(config) =>
      if Listed(config.repos, alias) then (content, AliasTaken)
      else if config.default.url != "" && alias == DEFAULT_ALIAS then (content, DefaultTaken)
      else if created.None? then (content, RemoteFailed)
      else (Rewritten(content, Registered(config, alias, created.value), rewrite),
            if rewrite.Written? then Added else OverwriteFailed)
  }

  function UnregisterStep(content: Content, alias: string, rewrite: Rewrite): (Content, Outcome) {
    match Load(content)
    case None => (content, LoadFailed)
    case Some(config) =>
      if config.repos == [] then (content, NothingRegistered)
      else if !Listed(config.repos, alias) then (content, NotFound)
      else (Rewritten(content, Unregistered(config, alias), rewrite),
            if rewrite.Written? then Removed else OverwriteFailed)
  }

  /** The shortcut for the default alias, and a search for the others. */
  function Lookup(config: Config, alias: string): Result<string, Outcome> {
    if alias == DEFAULT_ALIAS then Ok(config.default.url)
    else if Listed(config.repos, alias) then Ok(config.repos[IndexOf(config.repos, alias)].url)
    else Err(NotFound)
  }

  // ---------------------------------------------------------------- the commands

  class RepoFile {
    var content: Content

    constructor ()
      ensures content == Blank
    {
      content := Blank;
    }

    static method AliasExists(repos: seq<Repo>, alias: string) returns (found: bool)
      ensures found <==> exists repo :: repo in repos && repo.alias == alias
    {
      for i := 0 to |repos|
        invariant forall j | 0 <= j < i :: repos[j].alias != alias
      {
        if repos[i].alias == alias {
          return true;
        }
      }
      return false;
    }

    method Register(alias: string, created: Option<string>, rewrite: Rewrite) returns (outcome: Outcome)
      modifies this
      ensures (content, outcome) == RegisterStep(old(content), alias, created, rewrite)
    {
      var loaded := Load(content);
      if loaded.None? {
        return LoadFailed;
      }
      var config := loaded.value;
      var taken := AliasExists(config.repos, alias);
      if taken {
        return AliasTaken;
      }
      if config.default.url != "" && alias == DEFAULT_ALIAS {
        return DefaultTaken;
      }
      if created.None? {
        return RemoteFailed;
      }
      var repo := Repo(created.value, alias);
      config := config.(repos := config.repos + [repo]);
      if repo.alias == DEFAULT_ALIAS {
        config := config.(default := repo);
      }
      outcome := Overwrite(config, rewrite, Added);
    }

    method Unregister(alias: string, rewrite: Rewrite) returns (outcome: Outcome)
      modifies this
      ensures (content, outcome) == UnregisterStep(old(content), alias, rewrite)
    {
      var loaded := Load(content);
      if loaded.None? {
        return LoadFailed;
      }
      var config := loaded.value;
      if |config.repos| == 0 {
        return NothingRegistered;
      }
      for i := 0 to |config.repos|
        invariant content == old(content)
        invariant forall j | 0 <= j < i :: config.repos[j].alias != alias
      {
        var repo := config.repos[i];
        if repo.alias == alias {
          if repo.alias == DEFAULT_ALIAS {
            config := config.(default := NO_REPO);
          }
          config := config.(repos := config.repos[..i] + config.repos[i + 1..]);
          outcome := Overwrite(config, rewrite, Removed);
          return;
        }
      }
      return NotFound;
    }

    /** Empty the file, then write the new configuration. */
    method Overwrite(config: Config, rewrite: Rewrite, success: Outcome) returns (outcome: Outcome)
      modifies this
      ensures content == Rewritten(old(content), config, rewrite)
      ensures outcome == if rewrite.Written? then success else OverwriteFailed
    {
      if rewrite.NotTruncated? {
        return OverwriteFailed;
      }
      content := Blank;
      if rewrite.NothingWritten? {
        return OverwriteFailed;
      }
      if rewrite.PartlyWritten? {
        content := Damaged;
        return OverwriteFailed;
      }
      content := Holding(config);
      return success;
    }

    method GetAlias(alias: string) returns (r: Result<string, Outcome>)
      ensures r == match Load(content) case None => Err(LoadFailed) case Some(config) => Lookup(config, alias)
    {
      var loaded := Load(content);
      if loaded.None? {
        return Err(LoadFailed);
      }
      var config := loaded.value;
      if alias == DEFAULT_ALIAS {
        return Ok(config.default.url);
      }
      for i := 0 to |config.repos|
        invariant forall j | 0 <= j < i :: config.repos[j].alias != alias
      {
        if config.repos[i].alias == alias {
          return Ok(config.repos[i].url);
        }
      }
      return Err(NotFound);
    }
  }

  // ---------------------------------------------------------------- the registry as a map

  ghost predicate Distinct(repos: seq<Repo>) {
    forall i, j | 0 <= i < j < |repos| :: repos[i].alias != repos[j].alias
  }

  /** Aliases are distinct, and the default slot repeats the entry "default", or is blank without one. */
  ghost predicate Consistent(config: Config) {
    && Distinct(config.repos)
    && config.default == if Listed(config.repos, DEFAULT_ALIAS)
                         then config.repos[IndexOf(config.repos, DEFAULT_ALIAS)] else NO_REPO
  }

  function Aliases(repos: seq<Repo>): set<string> {
    set repo | repo in repos :: repo.alias
  }

  lemma ListedAlias(repos: seq<Repo>, alias: string)
    ensures Listed(repos, alias) <==> alias in Aliases(repos)
  {
    if alias in Aliases(repos) {
      var repo :| repo in repos && repo.alias == alias;
      var i :| 0 <= i < |repos| && repos[i] == repo;
    }
  }

  /** A plain map from alias to URL. */
  ghost function UrlOf(repos: seq<Repo>): map<string, string> {
    map alias | alias in Aliases(repos) && Listed(repos, alias) :: repos[IndexOf(repos, alias)].url
  }

  lemma UrlOfAt(repos: seq<Repo>, alias: string)
    ensures alias in UrlOf(repos) <==> Listed(repos, alias)
    ensures Listed(repos, alias) ==> UrlOf(repos)[alias] == repos[IndexOf(repos, alias)].url
  {
    ListedAlias(repos, alias);
  }

  lemma IndexIs(repos: seq<Repo>, i: nat, alias: string)
    requires Distinct(repos) && i < |repos| && repos[i].alias == alias
    ensures IndexOf(repos, alias) == i
  {
  }

  lemma RegisteredKeeps(config: Config, alias: string, url: string)
    requires Consistent(config) && !Listed(config.repos, alias)
    ensures Consistent(Registered(config, alias, url))
    ensures UrlOf(Registered(config, alias, url).repos) == UrlOf(config.repos)[alias := url]
  {
    var repos := Registered(config, alias, url).repos;
    IndexIs(repos, |config.repos|, alias);
    forall a
      ensures a != alias ==> (Listed(repos, a) <==> Listed(config.repos, a))
      ensures a != alias && Listed(repos, a) ==> IndexOf(repos, a) == IndexOf(config.repos, a)
    {
      if a != alias && Listed(config.repos, a) {
        IndexIs(repos, IndexOf(config.repos, a), a);
      }
    }
    forall a
      ensures a in UrlOf(repos) <==> a in UrlOf(config.repos)[alias := url]
      ensures a in UrlOf(repos) ==> UrlOf(repos)[a] == UrlOf(config.repos)[alias := url][a]
    {
      UrlOfAt(repos, a);
      UrlOfAt(config.repos, a);
    }
  }

  /** Removing one entry leaves every other alias with its entry. */
  lemma WithoutOthers(repos: seq<Repo>, i: nat, a: string)
    requires Distinct(repos) && i < |repos|
    ensures var rest := Without(repos, i);
            && Distinct(rest)
            && (Listed(rest, a) <==> Listed(repos, a) && a != repos[i].alias)
            && (Listed(rest, a) ==> rest[IndexOf(rest, a)] == repos[IndexOf(repos, a)])
  {
    var rest := Without(repos, i);
    if Listed(repos, a) && a != repos[i].alias {
      var k := IndexOf(repos, a);
      IndexIs(rest, if k < i then k else k - 1, a);
    }
  }

  lemma WithoutUrl(repos: seq<Repo>, i: nat, a: string)
    requires Distinct(repos) && i < |repos|
    ensures var rest := Without(repos, i);
            && (a in UrlOf(rest) <==> a in UrlOf(repos) && a != repos[i].alias)
            && (a in UrlOf(rest) ==> UrlOf(rest)[a] == UrlOf(repos)[a])
  {
    WithoutOthers(repos, i, a);
    UrlOfAt(Without(repos, i), a);
    UrlOfAt(repos, a);
  }

  lemma MapWithout(before: map<string, string>, after: map<string, string>, gone: string)
    requires forall a :: a in after <==> a in before && a != gone
    requires forall a | a in after :: after[a] == before[a]
    ensures after == before - {gone}
  {
  }

  lemma WithoutUrls(repos: seq<Repo>, i: nat)
    requires Distinct(repos) && i < |repos|
    ensures UrlOf(Without(repos, i)) == UrlOf(repos) - {repos[i].alias}
  {
    var before, after := UrlOf(repos), UrlOf(Without(repos, i));
    forall a
      ensures a in after <==> a in before && a != repos[i].alias
      ensures a in after ==> after[a] == before[a]
    {
      WithoutUrl(repos, i, a);
    }
    MapWithout(before, after, repos[i].alias);
  }

  lemma UnregisteredKeeps(config: Config, alias: string)
    requires Consistent(config) && Listed(config.repos, alias)
    ensures Consistent(Unregistered(config, alias))
    ensures UrlOf(Unregistered(config, alias).repos) == UrlOf(config.repos) - {alias}
  {
    var i := IndexOf(config.repos, alias);
    WithoutOthers(config.repos, i, DEFAULT_ALIAS);
    WithoutUrls(config.repos, i);
  }

  /** Looking an alias up agrees with the map, except that "default" is found, blank, when not registered. */
  lemma LookupAgrees(config: Config, alias: string)
    requires Consistent(config)
    ensures var urls := UrlOf(config.repos);
            Lookup(config, alias) == if alias in urls then Ok(urls[alias])
                                     else if alias == DEFAULT_ALIAS then Ok("") else Err(NotFound)
  {
    UrlOfAt(config.repos, alias);
  }

  /** Registering a fresh alias and unregistering it gives the configuration back. */
  lemma RegisterUnregister(config: Config, alias: string, url: string)
    requires Consistent(config) && !Listed(config.repos, alias)
    ensures Listed(Registered(config, alias, url).repos, alias)
    ensures Unregistered(Registered(config, alias, url), alias) == config
  {
    var now := Registered(config, alias, url);
    RegisteredKeeps(config, alias, url);
    IndexIs(now.repos, |config.repos|, alias);
  }

  // ---------------------------------------------------------------- histories

  datatype Command =
    | Register(alias: string, created: Option<string>, rewrite: Rewrite)
    | Unregister(alias: string, rewrite: Rewrite)

  function Step(content: Content, c: Command): (Content, Outcome) {
    match c
    case Register(alias, created, rewrite) => RegisterStep(content, alias, created, rewrite)
    case Unregister(alias, rewrite) => UnregisterStep(content, alias, rewrite)
  }

  function Run(content: Content, commands: seq<Command>): Content {
    if commands == [] then content
    else Step(Run(content, commands[..|commands| - 1]), commands[|commands| - 1]).0
  }

  /** The same commands on a plain map; None once a rewrite has damaged the file. */
  function Reference(urls: Option<map<string, string>>, commands: seq<Command>): Option<map<string, string>> {
    if commands == [] then urls
    else
      match Reference(urls, commands[..|commands| - 1])
      case None => None
      case Some(m) => ReferenceStep(m, commands[|commands| - 1])
  }

  function ReferenceStep(m: map<string, string>, c: Command): Option<map<string, string>> {
    match c
    case Register(alias, created, rewrite) =>
      if alias in m || created.None? then Some(m) else ReferenceRewrite(m, m[alias := created.value], rewrite)
    case Unregister(alias, rewrite) =>
      if alias !in m then Some(m) else ReferenceRewrite(m, m - {alias}, rewrite)
  }

  function ReferenceRewrite(before: map<string, string>, after: map<string, string>, rewrite: Rewrite)
    : Option<map<string, string>>
  {
    match rewrite
    case Written => Some(after)
    case NotTruncated => Some(before)
    case NothingWritten => Some(map[])
    case PartlyWritten => None
  }

  /** The file stands for the map. */
  ghost predicate Represents(content: Content, urls: Option<map<string, string>>) {
    match Load(content)
    case None => urls == None
    case Some(config) => Consistent(config) && urls == Some(UrlOf(config.repos))
  }

  lemma EmptyRepresents()
    ensures Represents(Blank, Some(map[]))
  {
    assert Aliases([]) == {};
    assert UrlOf([]) == map[];
  }

  lemma RewriteRepresents(content: Content, config: Config, m: map<string, string>, rewrite: Rewrite)
    requires Represents(content, Some(m)) && Consistent(config)
    ensures Represents(Rewritten(content, config, rewrite), ReferenceRewrite(m, UrlOf(config.repos), rewrite))
  {
    EmptyRepresents();
  }

  lemma RegisterRepresents(content: Content, m: map<string, string>, alias: string, created: Option<string>,
                           rewrite: Rewrite)
    requires Represents(content, Some(m))
    ensures var (after, outcome) := RegisterStep(content, alias, created, rewrite);
            && Represents(after, ReferenceStep(m, Register(alias, created, rewrite)))
            && outcome != DefaultTaken
  {
    var config := Load(content).value;
    UrlOfAt(config.repos, alias);
    if alias !in m && created.Some? {
      RegisteredKeeps(config, alias, created.value);
      RewriteRepresents(content, Registered(config, alias, created.value), m, rewrite);
    }
  }

  lemma UnregisterRepresents(content: Content, m: map<string, string>, alias: string, rewrite: Rewrite)
    requires Represents(content, Some(m))
    ensures Represents(UnregisterStep(content, alias, rewrite).0, ReferenceStep(m, Unregister(alias, rewrite)))
  {
    var config := Load(content).value;
    UrlOfAt(config.repos, alias);
    if alias in m {
      UnregisteredKeeps(config, alias);
      RewriteRepresents(content, Unregistered(config, alias), m, rewrite);
    }
  }

  lemma StepRepresents(content: Content, m: map<string, string>, c: Command)
    requires Represents(content, Some(m))
    ensures Represents(Step(content, c).0, ReferenceStep(m, c))
    ensures Step(content, c).1 != DefaultTaken
  {
    match c
    case Register(alias, created, rewrite) => RegisterRepresents(content, m, alias, created, rewrite);
    case Unregister(alias, rewrite) => UnregisterRepresents(content, m, alias, rewrite);
  }

  /**
     Over every sequence of commands from an empty file, whatever URLs the server answers with and
     however rewrites end: the file stands for the map the commands build, with distinct aliases
     and a default slot that repeats the entry "default".
   */
  lemma {:induction false} RegistryHistory(commands: seq<Command>)
    ensures Represents(Run(Blank, commands), Reference(Some(map[]), commands))
  {
    EmptyRepresents();
    if commands != [] {
      var front, c := commands[..|commands| - 1], commands[|commands| - 1];
      RegistryHistory(front);
      if Reference(Some(map[]), front).Some? {
        StepRepresents(Run(Blank, front), Reference(Some(map[]), front).value, c);
      }
    }
  }

  /** The error for a taken default slot never happens: the list is checked first. */
  lemma DefaultNeverTaken(commands: seq<Command>, c: Command)
    ensures Step(Run(Blank, commands), c).1 != DefaultTaken
  {
    RegistryHistory(commands);
    if Reference(Some(map[]), commands).Some? {
      StepRepresents(Run(Blank, commands), Reference(Some(map[]), commands).value, c);
    }
  }

  /** What a lookup gives after any sequence of commands, in terms of the map alone. */
  lemma LookupHistory(commands: seq<Command>, alias: string)
    ensures var urls, loaded := Reference(Some(map[]), commands), Load(Run(Blank, commands));
            && (loaded.None? <==> urls.None?)
            && (loaded.Some? ==>
                  Lookup(loaded.value, alias)
                  == if alias in urls.value then Ok(urls.value[alias])
                     else if alias == DEFAULT_ALIAS then Ok("") else Err(NotFound))
  {
    RegistryHistory(commands);
    var loaded := Load(Run(Blank, commands));
    if loaded.Some? {
      LookupAgrees(loaded.value, alias);
    }
  }

  /** With non-empty URLs the default slot has a URL exactly when "default" is registered. */
  lemma DefaultSlot(config: Config)
    requires Consistent(config) && forall repo | repo in config.repos :: repo.url != ""
    ensures config.default.url != "" <==> DEFAULT_ALIAS in UrlOf(config.repos)
  {
    UrlOfAt(config.repos, DEFAULT_ALIAS);
  }

  // ---------------------------------------------------------------- what the commands answer

  /** The answers of both commands, in terms of the map the file stands for. */
  lemma AnswerTells(content: Content, m: map<string, string>, alias: string, created: Option<string>, rewrite: Rewrite)
    requires Represents(content, Some(m))
    ensures RegisterStep(content, alias, created, rewrite).1
         == if alias in m then AliasTaken
            else if created.None? then RemoteFailed
            else if rewrite.Written? then Added else OverwriteFailed
    ensures UnregisterStep(content, alias, rewrite).1
         == if m == map[] then NothingRegistered
            else if alias !in m then NotFound
            else if rewrite.Written? then Removed else OverwriteFailed
  {
    var config := Load(content).value;
    UrlOfAt(config.repos, alias);
    RegisterRepresents(content, m, alias, created, rewrite);
    if config.repos == [] {
      assert Aliases([]) == {};
    } else {
      assert IndexOf(config.repos, config.repos[0].alias) == 0;
      UrlOfAt(config.repos, config.repos[0].alias);
      assert config.repos[0].alias in m;
    }
  }

  /** So over every sequence of commands from an empty file, until a rewrite damages it. */
  lemma AnswerHistory(commands: seq<Command>, c: Command)
    ensures var urls := Reference(Some(map[]), commands);
            Step(Run(Blank, commands), c).1
            == if urls.None? then LoadFailed
               else match c
                    case Register(alias, created, rewrite) =>
                      if alias in urls.value then AliasTaken
                      else if created.None? then RemoteFailed
                      else if rewrite.Written? then Added else OverwriteFailed
                    case Unregister(alias, rewrite) =>
                      if urls.value == map[] then NothingRegistered
                      else if alias !in urls.value then NotFound
                      else if rewrite.Written? then Removed else OverwriteFailed
  {
    RegistryHistory(commands);
    var urls := Reference(Some(map[]), commands);
    if urls.Some? {
      match c {
        case Register(alias, created, rewrite) =>
          AnswerTells(Run(Blank, commands), urls.value, alias, created, rewrite);
        case Unregister(alias, rewrite) =>
          AnswerTells(Run(Blank, commands), urls.value, alias, None, rewrite);
      }
    }
  }

  /** The list keeps the order of registration: a new entry comes last, and no command reorders the others. */
  lemma OrderKept(content: Content, c: Command, a: string, b: string)
    requires Load(content).Some? && Consistent(Load(content).value)
    requires Load(Step(content, c).0).Some?
    ensures var before, after := Load(content).value.repos, Load(Step(content, c).0).value.repos;
            Listed(after, a) && Listed(after, b) && IndexOf(after, a) < IndexOf(after, b) ==>
              Listed(before, a) && (Listed(before, b) ==> IndexOf(before, a) < IndexOf(before, b))
  {
    match c
    case Register(alias, created, rewrite) => RegisterOrder(content, alias, created, rewrite, a, b);
    case Unregister(alias, rewrite) => UnregisterOrder(content, alias, rewrite, a, b);
  }

  lemma RegisterOrder(content: Content, alias: string, created: Option<string>, rewrite: Rewrite, a: string, b: string)
    requires Load(content).Some? && Consistent(Load(content).value)
    requires Load(RegisterStep(content, alias, created, rewrite).0).Some?
    ensures var before := Load(content).value.repos;
            var after := Load(RegisterStep(content, alias, created, rewrite).0).value.repos;
            Listed(after, a) && Listed(after, b) && IndexOf(after, a) < IndexOf(after, b) ==>
              Listed(before, a) && (Listed(before, b) ==> IndexOf(before, a) < IndexOf(before, b))
  {
    var before := Load(content).value.repos;
    var after := Load(RegisterStep(content, alias, created, rewrite).0).value.repos;
    if !Listed(before, alias) && created.Some? {
      var grown := before + [Repo(created.value, alias)];
      if after == grown && Listed(grown, a) && Listed(grown, b) && IndexOf(grown, a) < IndexOf(grown, b) {
        EarlierKept(before, Repo(created.value, alias), a, b);
      }
    }
  }

  lemma UnregisterOrder(content: Content, alias: string, rewrite: Rewrite, a: string, b: string)
    requires Load(content).Some? && Consistent(Load(content).value)
    requires Load(UnregisterStep(content, alias, rewrite).0).Some?
    ensures var before := Load(content).value.repos;
            var after := Load(UnregisterStep(content, alias, rewrite).0).value.repos;
            Listed(after, a) && Listed(after, b) && IndexOf(after, a) < IndexOf(after, b) ==>
              Listed(before, a) && Listed(before, b) && IndexOf(before, a) < IndexOf(before, b)
  {
    var before := Load(content).value.repos;
    if Listed(before, alias) {
      var rest := Without(before, IndexOf(before, alias));
      if Listed(rest, a) && Listed(rest, b) && IndexOf(rest, a) < IndexOf(rest, b) {
        EarlierLeft(before, IndexOf(before, alias), a, b);
      }
    }
  }

  lemma EarlierKept(before: seq<Repo>, repo: Repo, a: string, b: string)
    requires Distinct(before) && !Listed(before, repo.alias)
    requires var after := before + [repo];
             Listed(after, a) && Listed(after, b) && IndexOf(after, a) < IndexOf(after, b)
    ensures Listed(before, a) && (Listed(before, b) ==> IndexOf(before, a) < IndexOf(before, b))
  {
    var after := before + [repo];
    var i, j := IndexOf(after, a), IndexOf(after, b);
    assert before[i].alias == a;
    IndexIs(before, i, a);
    if Listed(before, b) && j < |before| {
      IndexIs(before, j, b);
    }
  }

  lemma EarlierLeft(before: seq<Repo>, n: nat, a: string, b: string)
    requires Distinct(before) && n < |before|
    requires var after := Without(before, n);
             Listed(after, a) && Listed(after, b) && IndexOf(after, a) < IndexOf(after, b)
    ensures Listed(before, a) && Listed(before, b) && IndexOf(before, a) < IndexOf(before, b)
  {
    var after := Without(before, n);
    var i, j := IndexOf(after, a), IndexOf(after, b);
    IndexIs(before, if i < n then i else i + 1, a);
    IndexIs(before, if j < n then j else j + 1, b);
  }
}
