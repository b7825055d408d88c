/**
 * The configuration loader of src/feishu/config.py: where the configuration
 * file is looked for, which section of the parsed TOML document is used, the
 * defaults for missing keys, the validation of the enabled flag and of every
 * webhook URL, the `Config` object and its read-only views, and the masking
 * of webhook URLs for display.
 *
 * The file system is a map from path to what reading that path gives; a path
 * exists exactly when it is a key.  TOML parsing itself is not modelled: a
 * readable file is either malformed or a parsed document.
 */
module FeishuConfig {
  import opened Wrappers
  import opened PyStr
  import opened UrlParse

  /** The domain every webhook host must contain. */
  const FeishuDomain := "feishu.cn"
  /** The path segment every webhook path must contain. */
  const HookPath := "/open-apis/bot/v2/hook/"

  // ---------------------------------------------------------------- values

  /** The TOML values a configuration file can hold (floats and dates are not
      modelled). */
  datatype TomlValue =
    | TBool(b: bool)
    | TInt(i: int)
    | TString(s: string)
    | TArray(items: seq<TomlValue>)
    | TTable(entries: map<string, TomlValue>)

  /** Python truthiness of a parsed TOML value. */
  predicate Truthy(v: TomlValue) {
    match v
    case TBool(b) => b
    case TInt(i) => i != 0
    case TString(s) => s != ""
    case TArray(items) => |items| > 0
    case TTable(entries) => |entries| > 0
  }

  /** What `for x in v` visits: the items of an array, the one-character
      strings of a string, and nothing for the values iteration rejects.
      Iterating a table visits its keys in file order, which a map does not
      keep; only the empty table is modelled. */
  function Iterate(v: TomlValue): (r: Option<seq<TomlValue>>)
    ensures r.Some? ==> (|r.value| == 0 <==> !Truthy(v))
  {
    match v
    case TArray(items) => Some(items)
    case TString(s) => Some(seq(|s|, i requires 0 <= i < |s| => TString([s[i]])))
    case TTable(entries) => if |entries| == 0 then Some([]) else None
    case _ => None
  }

  /** `table.get(key, default)`. */
  function Get(entries: map<string, TomlValue>, key: string, default: TomlValue): TomlValue {
    if key in entries then entries[key] else default
  }

  // ---------------------------------------------------------------- errors

  /** The reasons `ConfigError` is raised. */
  datatype ConfigProblem =
    | FileNotFound(path: string)
    | ParseFailed(message: string)
    | ReadFailed(reason: string)
    | MissingSection
    | EnabledWithoutWebhooks
    | InvalidWebhook(webhook: TomlValue)

  /** Exceptions other than `ConfigError` that loading lets through. */
  datatype OtherException =
    | NotificationsNotSearchable  // `'feishu' in notifications` on a number or boolean
    | NotificationsNotATable      // `notifications['feishu']` on a string or an array
    | SectionNotATable            // `.get` on a section that is not a table
    | WebhooksNotIterable         // `for webhook in webhooks` on a value that cannot be iterated

  datatype LoadError = ConfigError(problem: ConfigProblem) | Unexpected(other: OtherException)

  // ------------------------------------------------------- URL validation

  /** `_is_valid_webhook_url`: the URL splits with scheme `https`, a netloc
      containing the provider domain and a path containing the bot hook path.
      A netloc with only one of `[` and `]` makes the split raise, which the
      check turns into `False`. */
  predicate IsValidWebhookUrl(url: string) {
    AcceptedParts(SplitUrl(url))
  }

  /** The test `_is_valid_webhook_url` applies to the split URL. */
  predicate AcceptedParts(parts: UrlParts) {
    var netloc := parts.Netloc();
    if ('[' in netloc) != (']' in netloc) then false
    else parts.Scheme() == "https" && Contains(netloc, FeishuDomain) && Contains(parts.path, HookPath)
  }

  /** Every accepted URL starts with `https://`, the scheme in any letter
      case. */
  lemma ValidWebhookPrefix(url: string)
    requires IsValidWebhookUrl(url)
    ensures |url| >= 8 && LowerAscii(url[..5]) == "https" && url[5..8] == "://"
  {
    var p := SplitUrl(url);
    AcceptedPartsShape(p);
    ShapeOfParts(url, p.scheme.value, p.authority.value, p.path);
  }

  /** Every accepted URL holds the provider domain and the hook path. */
  lemma ValidWebhookMentions(url: string)
    requires IsValidWebhookUrl(url)
    ensures Contains(url, FeishuDomain) && Contains(url, HookPath)
  {
    var p := SplitUrl(url);
    AcceptedPartsShape(p);
    ShapeOfParts(url, p.scheme.value, p.authority.value, p.path);
  }

  /** Split parts that pass have a five-letter scheme and an authority. */
  predicate ShapedParts(p: UrlParts) {
    && p.scheme.Some? && p.authority.Some? && |p.scheme.value| == 5
    && LowerAscii(p.scheme.value) == "https"
    && Contains(p.authority.value, FeishuDomain) && Contains(p.path, HookPath)
  }

  lemma AcceptedPartsShape(p: UrlParts)
    requires AcceptedParts(p)
    ensures ShapedParts(p)
  {
    assert p.authority.Some? by {
      if p.authority.None? { ContainsNeedsLength("", FeishuDomain); }
    }
  }

  lemma ShapeOfParts(url: string, scheme: string, host: string, path: string)
    requires SplitUrl(url).scheme == Some(scheme) && SplitUrl(url).authority == Some(host)
    requires SplitUrl(url).path == path
    requires |scheme| == 5 && LowerAscii(scheme) == "https"
    requires Contains(host, FeishuDomain) && Contains(path, HookPath)
    ensures |url| >= 8 && LowerAscii(url[..5]) == "https" && url[5..8] == "://"
    ensures Contains(url, FeishuDomain) && Contains(url, HookPath)
  {
    LayoutWithAuthority(url);
    var tail := QueryAndFragment(SplitUrl(url));
    PrefixThenPiece(url, scheme, "://", host + path + tail);
    ContainsWithin(scheme + "://", host, path + tail, FeishuDomain);
    ContainsWithin(scheme + "://" + host, path, tail, HookPath);
  }

  /** The URL shape the provider issues is accepted:
      `https://<host containing feishu.cn>/open-apis/bot/v2/hook/<token>`. */
  lemma CanonicalWebhookValid(host: string, token: string, url: string)
    requires Contains(host, FeishuDomain)
    requires forall k :: 0 <= k < |host| ==> host[k] !in {'/', '?', '#', '[', ']'}
    requires '?' !in token && '#' !in token
    requires url == CanonicalUrl(host, token)
    ensures IsValidWebhookUrl(url)
  {
    var p := UrlParts(Some("https"), Some(host), HookPath + token, None, None);
    CanonicalSplit(host, token);
    CanonicalPartsAccepted(host, token, p);
    AcceptedSplit(url, p);
  }

  lemma CanonicalPartsAccepted(host: string, token: string, p: UrlParts)
    requires Contains(host, FeishuDomain)
    requires forall k :: 0 <= k < |host| ==> host[k] !in {'/', '?', '#', '[', ']'}
    requires p == UrlParts(Some("https"), Some(host), HookPath + token, None, None)
    ensures AcceptedParts(p)
  {
    ContainsPrefix(HookPath, token);
    assert '[' !in host && ']' !in host;
    AcceptedPartsOf(host, HookPath + token);
  }

  lemma AcceptedSplit(url: string, p: UrlParts)
    requires SplitUrl(url) == p && AcceptedParts(p)
    ensures IsValidWebhookUrl(url)
  {
  }

  /** `https://<host>/open-apis/bot/v2/hook/<token>`. */
  function CanonicalUrl(host: string, token: string): (url: string)
    ensures url == "https" + ":" + ("//" + host + (HookPath + token))
  {
    CanonicalLayout(host, token);
    "https://" + host + HookPath + token
  }

  lemma CanonicalLayout(host: string, token: string)
    ensures "https://" + host + HookPath + token == "https" + ":" + ("//" + host + (HookPath + token))
  {
    assert "https://" == "https" + ":" + "//";
  }

  /** How the provider's URL shape splits. */
  lemma CanonicalSplit(host: string, token: string)
    requires forall k :: 0 <= k < |host| ==> host[k] !in {'/', '?', '#', '[', ']'}
    requires '?' !in token && '#' !in token
    ensures SplitUrl(CanonicalUrl(host, token))
      == UrlParts(Some("https"), Some(host), HookPath + token, None, None)
  {
    var rest := HookPath + token;
    var afterScheme := "//" + host + rest;
    SchemeSplitOf("https", afterScheme);
    AuthoritySplitOf(host, rest);
    HookPathThenToken(token);
    SplitUrlOf("https" + ":" + afterScheme, "https", afterScheme, host, rest);
  }

  /** Scheme `https`, a host with the provider domain and no brackets, and
      a path with the hook path pass. */
  lemma AcceptedPartsOf(host: string, path: string)
    requires Contains(host, FeishuDomain) && '[' !in host && ']' !in host
    requires Contains(path, HookPath)
    ensures AcceptedParts(UrlParts(Some("https"), Some(host), path, None, None))
  {
    HttpsLower();
  }

  lemma HookPathThenToken(token: string)
    requires '?' !in token && '#' !in token
    ensures '#' !in HookPath + token && '?' !in HookPath + token
  {
    HookPathPlain();
    var rest := HookPath + token;
    forall k | 0 <= k < |rest| ensures rest[k] != '#' && rest[k] != '?' {
      if k < |HookPath| { assert rest[k] == HookPath[k]; } else { assert rest[k] == token[k - |HookPath|]; }
    }
  }

  lemma HookPathPlain()
    ensures forall k :: 0 <= k < |HookPath| ==> HookPath[k] !in {'#', '?', '[', ']'}
  {
  }

  lemma HttpsLower()
    ensures LowerAscii("https") == "https"
  {
    LowerAsciiKeeps("https");
  }

  /** A string without a `:` has no scheme and is rejected ("invalid-url"). */
  lemma NoSchemeInvalid(url: string)
    requires ':' !in url
    ensures !IsValidWebhookUrl(url)
  {
    assert SplitScheme(url).0 == None;
  }

  /** Plain `http` is rejected whatever follows. */
  lemma PlainHttpInvalid(rest: string)
    ensures !IsValidWebhookUrl("http:" + rest)
  {
    assert "http:" + rest == "http" + ":" + rest;
    SchemeSplitOf("http", rest);
    LowerAsciiKeeps("http");
    assert SplitUrl("http:" + rest).Scheme() == "http";
  }

  // ------------------------------------------------------ config validation

  /** A configured webhook entry passes when it is a string that is a valid
      webhook URL (for any other value the URL check raises and answers
      `False`). */
  predicate ValidEntry(v: TomlValue) {
    v.TString? && IsValidWebhookUrl(v.s)
  }

  /** The first element of `xs` that `ok` rejects, in list order. */
  function FirstFailing<T>(xs: seq<T>, ok: T -> bool): Option<T>
    decreases |xs|
  {
    if |xs| == 0 then None
    else if !ok(xs[0]) then Some(xs[0])
    else FirstFailing(xs[1..], ok)
  }

  /** `j` is the first position of `xs` that `ok` rejects. */
  predicate FirstFailingAt<T>(xs: seq<T>, ok: T -> bool, j: int) {
    0 <= j < |xs| && !ok(xs[j])
    && forall k :: 0 <= k < j ==> ok(xs[k])
  }

  /** `FirstFailing` finds nothing exactly when `ok` accepts every element,
      and otherwise finds the element at the first rejected position. */
  lemma {:induction false} FirstFailingMeaning<T>(xs: seq<T>, ok: T -> bool)
    ensures FirstFailing(xs, ok).None? <==> forall k :: 0 <= k < |xs| ==> ok(xs[k])
    ensures FirstFailing(xs, ok).Some? ==>
      exists j :: FirstFailingAt(xs, ok, j) && xs[j] == FirstFailing(xs, ok).value
    decreases |xs|
  {
    if |xs| > 0 {
      if !ok(xs[0]) {
        assert FirstFailingAt(xs, ok, 0);
      } else {
        var tail := xs[1..];
        FirstFailingMeaning(tail, ok);
        if FirstFailing(tail, ok).Some? {
          var j :| FirstFailingAt(tail, ok, j) && tail[j] == FirstFailing(tail, ok).value;
          assert FirstFailingAt(xs, ok, j + 1);
        } else {
          forall k | 0 <= k < |xs| ensures ok(xs[k]) {
            if k > 0 { assert xs[k] == tail[k - 1]; }
          }
        }
      }
    }
  }

  /** What `_validate_config` decides. */
  function Validation(enabled: bool, webhooks: seq<TomlValue>): Outcome<ConfigProblem> {
    if enabled && |webhooks| == 0 then Fail(EnabledWithoutWebhooks)
    else match FirstFailing(webhooks, ValidEntry)
      case Some(w) => Fail(InvalidWebhook(w))
      case None => Pass
  }

  /** The validation rule: a configuration passes exactly when it is not
      enabled without webhooks and every webhook is valid; an enabled empty
      list is reported as such, and otherwise the error names the first
      invalid webhook in list order. */
  lemma ValidationMeaning(enabled: bool, webhooks: seq<TomlValue>)
    ensures Validation(enabled, webhooks).Pass? <==>
      (enabled ==> |webhooks| > 0) && forall k :: 0 <= k < |webhooks| ==> ValidEntry(webhooks[k])
    ensures enabled && |webhooks| == 0 ==> Validation(enabled, webhooks) == Fail(EnabledWithoutWebhooks)
    ensures !(enabled && |webhooks| == 0) && Validation(enabled, webhooks).Fail? ==>
      exists j :: FirstFailingAt(webhooks, ValidEntry, j) && Validation(enabled, webhooks) == Fail(InvalidWebhook(webhooks[j]))
  {
    FirstFailingMeaning(webhooks, ValidEntry);
  }

  /** `_validate_config`: reject an enabled configuration without webhooks,
      then check the webhooks one by one and stop at the first invalid one. */
  method ValidateConfig(enabled: bool, webhooks: seq<TomlValue>) returns (r: Outcome<ConfigProblem>)
    ensures r == Validation(enabled, webhooks)
  {
    if enabled && |webhooks| == 0 {
      return Fail(EnabledWithoutWebhooks);
    }
    for i := 0 to |webhooks|
      invariant FirstFailing(webhooks, ValidEntry) == FirstFailing(webhooks[i..], ValidEntry)
    {
      assert webhooks[i..][1..] == webhooks[i + 1..];
      if !ValidEntry(webhooks[i]) {
        return Fail(InvalidWebhook(webhooks[i]));
      }
    }
    return Pass;
  }

  // ------------------------------------------------------ section selection

  /** The document has a `notifications` table with a `feishu` key. */
  predicate HasNestedSection(doc: map<string, TomlValue>) {
    "notifications" in doc && doc["notifications"].TTable? && "feishu" in doc["notifications"].entries
  }

  /** `key in v`: a table tests its keys, a string its text, an array its
      items; for a number or a boolean the test raises (`None`). */
  function MembershipTest(v: TomlValue, key: string): (r: Option<bool>)
    ensures v.TTable? ==> r == Some(key in v.entries)
  {
    match v
    case TTable(entries) => Some(key in entries)
    case TString(s) => Some(Contains(s, key))
    case TArray(items) => Some(TString(key) in items)
    case _ => None
  }

  /** The `[feishu]` or else the `[notifications.feishu]` section.  A
      `notifications` value that is not a table either fails the membership
      test, or passes it and then cannot be indexed by a key. */
  function SelectSection(doc: map<string, TomlValue>): (r: Result<TomlValue, LoadError>)
    ensures r.Success? <==> "feishu" in doc || HasNestedSection(doc)
    ensures r.Success? && "feishu" in doc ==> r.value == doc["feishu"]
    ensures r.Success? && "feishu" !in doc ==> r.value == doc["notifications"].entries["feishu"]
    ensures r.Failure? && r.error.ConfigError? ==> r.error.problem == MissingSection
    ensures "notifications" !in doc && "feishu" !in doc ==> r == Failure(ConfigError(MissingSection))
    ensures "feishu" !in doc && "notifications" in doc && doc["notifications"].TTable? && "feishu" !in doc["notifications"].entries
      ==> r == Failure(ConfigError(MissingSection))
  {
    if "feishu" in doc then Success(doc["feishu"])
    else if "notifications" !in doc then Failure(ConfigError(MissingSection))
    else
      var notifications := doc["notifications"];
      match MembershipTest(notifications, "feishu")
      case None => Failure(Unexpected(NotificationsNotSearchable))
      case Some(false) => Failure(ConfigError(MissingSection))
      case Some(true) =>
        if notifications.TTable? then Success(notifications.entries["feishu"])
        else Failure(Unexpected(NotificationsNotATable))
  }

  /** The two accepted layouts hold the same section; when a document has
      both, the top-level one is used. */
  lemma SectionLayouts(section: TomlValue, doc: map<string, TomlValue>)
    ensures SelectSection(map["notifications" := TTable(map["feishu" := section])]) == SelectSection(map["feishu" := section])
    ensures SelectSection(doc["feishu" := section]) == Success(section)
    ensures "feishu" !in doc && HasNestedSection(doc) ==>
      SelectSection(doc) == Success(doc["notifications"].entries["feishu"])
  {
  }

  // ------------------------------------------------------ file discovery

  /** What reading an existing path gives. */
  datatype FileState = Unreadable(reason: string) | Malformed(message: string) | Parsed(doc: map<string, TomlValue>)

  /** The file system: a path exists exactly when it is a key. */
  type FileSystem = map<string, FileState>

  /** The process environment: `FEISHU_CONFIG_PATH` and the home directory. */
  datatype Environment = Environment(configPathVar: Option<string>, home: string)

  /** `~/.config/smallfeishu/config.toml`. */
  function XdgConfigPath(env: Environment): string {
    env.home + "/.config/smallfeishu/config.toml"
  }

  /** The configuration file in the working directory. */
  const LocalConfigPath := "config.toml"

  /** `_find_config_file`. */
  function FindConfigFile(env: Environment, fs: FileSystem): string {
    if env.configPathVar.Some? && env.configPathVar.value != "" && env.configPathVar.value in fs then
      env.configPathVar.value
    else if XdgConfigPath(env) in fs then XdgConfigPath(env)
    else if LocalConfigPath in fs then LocalConfigPath
    else XdgConfigPath(env)
  }

  /** The places looked at, in priority order: the environment variable when
      it is set and not empty, the per-user directory, the working directory. */
  function Candidates(env: Environment): seq<string> {
    (if env.configPathVar.Some? && env.configPathVar.value != "" then [env.configPathVar.value] else [])
    + [XdgConfigPath(env), LocalConfigPath]
  }

  /** The first path of `paths` that exists, or `fallback`. */
  function FirstExisting(paths: seq<string>, fs: FileSystem, fallback: string): string
    decreases |paths|
  {
    if |paths| == 0 then fallback
    else if paths[0] in fs then paths[0]
    else FirstExisting(paths[1..], fs, fallback)
  }

  /** `FirstExisting` gives an existing path at the earliest position, or the
      fallback when none exists. */
  lemma {:induction false} FirstExistingMeaning(paths: seq<string>, fs: FileSystem, fallback: string)
    ensures (forall k :: 0 <= k < |paths| ==> paths[k] !in fs) ==> FirstExisting(paths, fs, fallback) == fallback
    ensures forall j :: 0 <= j < |paths| && paths[j] in fs && (forall k :: 0 <= k < j ==> paths[k] !in fs) ==>
      FirstExisting(paths, fs, fallback) == paths[j]
    decreases |paths|
  {
    if |paths| > 0 {
      FirstExistingMeaning(paths[1..], fs, fallback);
      forall j | 0 <= j < |paths| && paths[j] in fs && (forall k :: 0 <= k < j ==> paths[k] !in fs)
        ensures FirstExisting(paths, fs, fallback) == paths[j]
      {
        if j > 0 {
          assert paths[0] !in fs;
          assert paths[1..][j - 1] == paths[j];
          assert forall k :: 0 <= k < j - 1 ==> paths[1..][k] == paths[k + 1];
        }
      }
    }
  }

  /** Discovery picks the first existing candidate in priority order, and
      falls back to the per-user path when none exists; so the result exists
      whenever some candidate does. */
  lemma FindConfigFileIsFirstExisting(env: Environment, fs: FileSystem)
    ensures FindConfigFile(env, fs) == FirstExisting(Candidates(env), fs, XdgConfigPath(env))
    ensures (exists k :: 0 <= k < |Candidates(env)| && Candidates(env)[k] in fs) ==> FindConfigFile(env, fs) in fs
  {
    var c := Candidates(env);
    var xdg := XdgConfigPath(env);
    var tail := [xdg, LocalConfigPath];
    FirstExistingMeaning(c, fs, xdg);
    assert FirstExisting(tail, fs, xdg) == if xdg in fs then xdg else FirstExisting([LocalConfigPath], fs, xdg) by {
      assert tail[1..] == [LocalConfigPath];
    }
    assert FirstExisting([LocalConfigPath], fs, xdg) == if LocalConfigPath in fs then LocalConfigPath else xdg by {
      assert [LocalConfigPath][1..] == [];
    }
    if env.configPathVar.Some? && env.configPathVar.value != "" {
      assert c == [env.configPathVar.value] + tail;
      assert c[1..] == tail;
    } else {
      assert c == tail;
    }
  }

  // ------------------------------------------------------------- loading

  /** The validated content of a configuration. */
  datatype Settings = Settings(enabled: bool, webhooks: seq<string>)

  /** The strings of a list of entries (all entries are strings once they
      passed validation). */
  function StringsOf(entries: seq<TomlValue>): (r: seq<string>)
    ensures |r| == |entries|
    ensures forall k :: 0 <= k < |entries| && entries[k].TString? ==> r[k] == entries[k].s
  {
    seq(|entries|, k requires 0 <= k < |entries| => if entries[k].TString? then entries[k].s else "")
  }

  /** The settings a selected section gives: `enabled` defaults to false and
      `webhooks` to the empty list, then `_validate_config` runs. */
  function SettingsOf(section: TomlValue): Result<Settings, LoadError> {
    if !section.TTable? then Failure(Unexpected(SectionNotATable))
    else
      var enabled := Truthy(Get(section.entries, "enabled", TBool(false)));
      var webhooks := Get(section.entries, "webhooks", TArray([]));
      match Iterate(webhooks)
      case None =>
        if enabled && !Truthy(webhooks) then Failure(ConfigError(EnabledWithoutWebhooks))
        else Failure(Unexpected(WebhooksNotIterable))
      case Some(entries) =>
        match Validation(enabled, entries)
        case Fail(problem) => Failure(ConfigError(problem))
        case Pass => Success(Settings(enabled, StringsOf(entries)))
  }

  /** The path `Config.load` reads: the explicit one, or the discovered one. */
  function ResolvePath(configPath: Option<string>, env: Environment, fs: FileSystem): string {
    if configPath.Some? then configPath.value else FindConfigFile(env, fs)
  }

  /** What `Config.load(config_path)` gives. */
  function LoadSettings(configPath: Option<string>, env: Environment, fs: FileSystem): Result<Settings, LoadError> {
    var path := ResolvePath(configPath, env, fs);
    if path !in fs then Failure(ConfigError(FileNotFound(path)))
    else match fs[path]
      case Unreadable(reason) => Failure(ConfigError(ReadFailed(reason)))
      case Malformed(message) => Failure(ConfigError(ParseFailed(message)))
      case Parsed(doc) =>
        match SelectSection(doc)
        case Failure(error) => Failure(error)
        case Success(section) => SettingsOf(section)
  }

  /** Every configuration that loads satisfies the configuration invariant:
      enabled implies at least one webhook, and every webhook is valid. */
  lemma LoadedSettingsValid(configPath: Option<string>, env: Environment, fs: FileSystem)
    requires LoadSettings(configPath, env, fs).Success?
    ensures var s := LoadSettings(configPath, env, fs).value;
      (s.enabled ==> |s.webhooks| > 0) && forall k :: 0 <= k < |s.webhooks| ==> IsValidWebhookUrl(s.webhooks[k])
  {
    var path := ResolvePath(configPath, env, fs);
    var section := SelectSection(fs[path].doc).value;
    var webhooks := Get(section.entries, "webhooks", TArray([]));
    var enabled := Truthy(Get(section.entries, "enabled", TBool(false)));
    ValidationMeaning(enabled, Iterate(webhooks).value);
  }

  /** A section without the two keys loads as disabled with no webhooks. */
  lemma MissingKeysDefault(section: map<string, TomlValue>)
    requires "enabled" !in section && "webhooks" !in section
    ensures SettingsOf(TTable(section)) == Success(Settings(false, []))
  {
  }

  /** An enabled section with an empty webhook list is rejected. */
  lemma EnabledEmptyRejected(section: map<string, TomlValue>)
    requires "enabled" in section && Truthy(section["enabled"])
    requires "webhooks" in section && section["webhooks"] == TArray([])
    ensures SettingsOf(TTable(section)) == Failure(ConfigError(EnabledWithoutWebhooks))
  {
  }

  /** A path that does not exist is reported, naming the resolved path. */
  lemma MissingFileReported(configPath: Option<string>, env: Environment, fs: FileSystem)
    requires ResolvePath(configPath, env, fs) !in fs
    ensures LoadSettings(configPath, env, fs) == Failure(ConfigError(FileNotFound(ResolvePath(configPath, env, fs))))
  {
  }

  // ------------------------------------------------------------- masking

  /** `_mask_webhook`: a URL of at most 50 characters shows its first and last
      10, a longer one its first 20 and last 15, around `...`; slices clamp
      to the string as in Python. */
  function MaskWebhook(webhook: string): (masked: string)
    ensures var front := if |webhook| <= 50 then 10 else 20;
      StartsWith(masked, Head(webhook, front))
    ensures var back := if |webhook| <= 50 then 10 else 15;
      var t := Tail(webhook, back);
      |t| <= |masked| && masked[|masked| - |t|..] == t
  {
    if |webhook| <= 50 then Head(webhook, 10) + "..." + Tail(webhook, 10)
    else Head(webhook, 20) + "..." + Tail(webhook, 15)
  }

  /** The length of a mask: twice the length plus three for URLs shorter than
      10 characters, 23 up to 50 characters, 38 beyond; the characters in
      between the shown ends are hidden.  A URL of at most 10 characters is
      shown whole on both sides of `...`. */
  lemma MaskLength(webhook: string)
    ensures |webhook| < 10 ==> |MaskWebhook(webhook)| == 2 * |webhook| + 3
    ensures |webhook| <= 10 ==> MaskWebhook(webhook) == webhook + "..." + webhook
    ensures 10 <= |webhook| <= 50 ==> |MaskWebhook(webhook)| == 23
    ensures |webhook| > 50 ==> |MaskWebhook(webhook)| == 38
    ensures |webhook| > 50 ==> MaskWebhook(webhook)[20..23] == "..."
    ensures 10 <= |webhook| <= 50 ==> MaskWebhook(webhook)[10..13] == "..."
  {
  }

  // -------------------------------------------------------- the object

  /** `get_config_info()`. */
  datatype ConfigInfo = ConfigInfo(enabled: bool, webhookCount: nat, webhooks: seq<string>)

  /** The loaded configuration: the enabled flag and the webhook list. */
  class Config {
    var feishuEnabled: bool
    var webhooks: seq<string>

    constructor (feishuEnabled: bool, webhooks: seq<string>)
      ensures this.feishuEnabled == feishuEnabled && this.webhooks == webhooks
    {
      this.feishuEnabled := feishuEnabled;
      this.webhooks := webhooks;
    }

    /** `get_webhooks()`: a copy of the list; a `seq` is a value, so what the
        caller does with it cannot reach the configuration. */
    method GetWebhooks() returns (copy: seq<string>)
      ensures copy == webhooks
    {
      copy := webhooks;
    }

    /** `is_enabled()`. */
    function IsEnabled(): bool
      reads this
    {
      feishuEnabled
    }

    /** `get_config_info()`: the flag, the number of webhooks and one masked
        entry per webhook, in order. */
    function GetConfigInfo(): (info: ConfigInfo)
      reads this
      ensures info.enabled == feishuEnabled
      ensures info.webhookCount == |webhooks| == |info.webhooks|
      ensures forall k :: 0 <= k < |webhooks| ==> info.webhooks[k] == MaskWebhook(webhooks[k])
    {
      ConfigInfo(feishuEnabled, |webhooks|,
        seq(|webhooks|, k requires 0 <= k < |webhooks| reads this => MaskWebhook(webhooks[k])))
    }
  }

  /** `Config.load`: resolve the path, check that it exists, read and parse
      it, select the section, take the keys with their defaults, validate,
      and build the configuration object. */
  method Load(configPath: Option<string>, env: Environment, fs: FileSystem) returns (r: Result<Config, LoadError>)
    ensures LoadSettings(configPath, env, fs).Failure? ==>
      r.Failure? && r.error == LoadSettings(configPath, env, fs).error
    ensures LoadSettings(configPath, env, fs).Success? ==>
      r.Success? && fresh(r.value)
      && r.value.feishuEnabled == LoadSettings(configPath, env, fs).value.enabled
      && r.value.webhooks == LoadSettings(configPath, env, fs).value.webhooks
  {
    var path := if configPath.None? then FindConfigFile(env, fs) else configPath.value;
    if path !in fs {
      return Failure(ConfigError(FileNotFound(path)));
    }
    var doc;
    match fs[path] {
      case Unreadable(reason) => return Failure(ConfigError(ReadFailed(reason)));
      case Malformed(message) => return Failure(ConfigError(ParseFailed(message)));
      case Parsed(d) => doc := d;
    }
    var section;
    if "feishu" in doc {
      section := doc["feishu"];
    } else if "notifications" in doc {
      var notifications := doc["notifications"];
      var found := MembershipTest(notifications, "feishu");
      if found.None? {
        return Failure(Unexpected(NotificationsNotSearchable));
      } else if !found.value {
        return Failure(ConfigError(MissingSection));
      } else if !notifications.TTable? {
        return Failure(Unexpected(NotificationsNotATable));
      }
      section := notifications.entries["feishu"];
    } else {
      return Failure(ConfigError(MissingSection));
    }
    if !section.TTable? {
      return Failure(Unexpected(SectionNotATable));
    }
    var enabled := Truthy(Get(section.entries, "enabled", TBool(false)));
    var webhooks := Get(section.entries, "webhooks", TArray([]));
    var entries;
    match Iterate(webhooks) {
      case None =>
        if enabled && !Truthy(webhooks) {
          return Failure(ConfigError(EnabledWithoutWebhooks));
        }
        return Failure(Unexpected(WebhooksNotIterable));
      case Some(e) => entries := e;
    }
    var outcome := ValidateConfig(enabled, entries);
    if outcome.Fail? {
      return Failure(ConfigError(outcome.error));
    }
    var config := new Config(enabled, StringsOf(entries));
    return Success(config);
  }
}
