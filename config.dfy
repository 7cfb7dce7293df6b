/**
 * Loading the application configuration: the YAML file's root must be a
 * mapping; each string setting is taken from the command line, else the
 * environment, else the file, else a built-in default; the numeric limits
 * are clamped and the base URL loses its trailing slashes.
 */
module Config {
  import opened Wrappers
  import opened Text
  import opened PyValue

  datatype AppConfig = AppConfig(
    baseUrl: string, apiKey: string, model: string, systemPrompt: string,
    maxChars: int, chunkChars: int, recursive: bool)

  /** What reading and parsing the YAML file produced. */
  datatype ConfigFile = NotFound | InvalidYaml | Document(root: Value)

  /** Values given on the command line (`None` when the option is absent). */
  datatype CliArgs = CliArgs(
    baseUrl: Option<string>, apiKey: Option<string>, model: Option<string>,
    systemPrompt: Option<string>, maxChars: Option<int>, chunkChars: Option<int>,
    recursive: Option<bool>)

  /** The PAPERREADER_* environment variables (`None` when unset). */
  datatype Env = Env(
    baseUrl: Option<string>, apiKey: Option<string>, model: Option<string>,
    systemPrompt: Option<string>)

  const DefaultBaseUrl := "https://api.openai.com/v1"
  const DefaultModel := "gpt-4o-mini"
  const DefaultSystemPrompt := "你是一位严谨的学术审稿人，请结构化总结论文。"
  const DefaultMaxChars := 120000
  const DefaultChunkChars := 12000
  const MinMaxChars := 2000
  const MinChunkChars := 1000

  /** `_read_yaml`: a missing file and unparsable YAML are errors; an empty
      (falsy) document counts as an empty mapping; any other root that is
      not a mapping is rejected. */
  function ReadYaml(file: ConfigFile, path: string): (r: Result<map<string, Value>>)
    ensures file.NotFound? || file.InvalidYaml? ==> r.Err?
    ensures file.Document? && !Truthy(file.root) ==> r == Ok(map[])
    ensures file.Document? && Truthy(file.root) ==> (r.Ok? <==> file.root.Object?)
    ensures r.Ok? && r.value != map[] ==> file == Document(Object(r.value))
  {
    match file
    case NotFound => Err("FileNotFoundError: Config file not found: " + path)
    case InvalidYaml => Err("ValueError: Invalid YAML in config file: " + path)
    case Document(root) =>
      if !Truthy(root) then Ok(map[])
      else if root.Object? then Ok(root.fields)
      else Err("ValueError: Config root must be a mapping")
  }

  /** `raw.get(key)`: `None` for an absent key. */
  function Get(raw: map<string, Value>, key: string): Value {
    if key in raw then raw[key] else Null
  }

  /** `raw.get(key, default)` */
  function GetOr(raw: map<string, Value>, key: string, default: Value): Value {
    if key in raw then raw[key] else default
  }

  function FromOption(o: Option<string>): Value {
    if o.None? then Null else Str(o.value)
  }

  /** `str(cli or env or yaml or default)`: the first of the four that is
      set and non-empty (for the file's value: truthy) wins. */
  function Setting(cli: Option<string>, env: Option<string>, yaml: Value, default: string,
                   render: Value -> string): (r: string)
    ensures cli.Some? && cli.value != "" ==> r == cli.value
    ensures (cli.None? || cli.value == "") && env.Some? && env.value != "" ==> r == env.value
    ensures (cli.None? || cli.value == "") && (env.None? || env.value == "") && Truthy(yaml) ==>
      r == PyStr(yaml, render)
    ensures (cli.None? || cli.value == "") && (env.None? || env.value == "") && !Truthy(yaml) ==>
      r == default
  {
    var a := FromOption(cli);
    var b := FromOption(env);
    PyStr(if Truthy(a) then a else if Truthy(b) then b else if Truthy(yaml) then yaml else Str(default), render)
  }

  /** An integer setting: the command-line value whenever it is given (even
      0), else `int()` of the file's value or the default. */
  function IntSetting(cli: Option<int>, raw: map<string, Value>, key: string, default: int): Result<int> {
    if cli.Some? then Ok(cli.value) else PyInt(GetOr(raw, key, Int(default)))
  }

  /** `load_config`. `render` gives `str()` of file values that are not
      strings, integers, booleans or null. */
  function LoadConfig(file: ConfigFile, path: string, cli: CliArgs, env: Env,
                      render: Value -> string): (r: Result<AppConfig>)
    ensures ReadYaml(file, path).Err? ==> r.Err?
    ensures r.Err? <==>
      || ReadYaml(file, path).Err?
      || (var raw := ReadYaml(file, path).value;
          || (cli.maxChars.None? && PyInt(GetOr(raw, "max_chars", Int(DefaultMaxChars))).Err?)
          || (cli.chunkChars.None? && PyInt(GetOr(raw, "chunk_chars", Int(DefaultChunkChars))).Err?))
    ensures r.Ok? ==> r.value.maxChars >= MinMaxChars && r.value.chunkChars >= MinChunkChars
    ensures r.Ok? && cli.maxChars.Some? ==> r.value.maxChars == AtLeast(MinMaxChars, cli.maxChars.value)
    ensures r.Ok? && cli.chunkChars.Some? ==> r.value.chunkChars == AtLeast(MinChunkChars, cli.chunkChars.value)
    ensures r.Ok? && cli.recursive.Some? ==> r.value.recursive == cli.recursive.value
    ensures ReadYaml(file, path).Ok? && cli.maxChars.Some? && cli.chunkChars.Some? ==> r.Ok?
    ensures r.Ok? ==> ReadYaml(file, path).Ok? && var raw := ReadYaml(file, path).value;
      && r.value.baseUrl == RStripChar(Setting(cli.baseUrl, env.baseUrl, Get(raw, "base_url"), DefaultBaseUrl, render), '/')
      && r.value.apiKey == Setting(cli.apiKey, env.apiKey, Get(raw, "api_key"), "", render)
      && r.value.model == Setting(cli.model, env.model, Get(raw, "model"), DefaultModel, render)
      && r.value.systemPrompt == Setting(cli.systemPrompt, env.systemPrompt, Get(raw, "system_prompt"), DefaultSystemPrompt, render)
      && (cli.maxChars.None? ==>
            r.value.maxChars == AtLeast(MinMaxChars, PyInt(GetOr(raw, "max_chars", Int(DefaultMaxChars))).value))
      && (cli.chunkChars.None? ==>
            r.value.chunkChars == AtLeast(MinChunkChars, PyInt(GetOr(raw, "chunk_chars", Int(DefaultChunkChars))).value))
      && (cli.recursive.None? ==> r.value.recursive == Truthy(GetOr(raw, "recursive", Bool(true))))
  {
    var loaded := ReadYaml(file, path);
    if loaded.Err? then Err(loaded.error)
    else
      var raw := loaded.value;
      var maxChars := IntSetting(cli.maxChars, raw, "max_chars", DefaultMaxChars);
      if maxChars.Err? then Err(maxChars.error)
      else
        var chunkChars := IntSetting(cli.chunkChars, raw, "chunk_chars", DefaultChunkChars);
        if chunkChars.Err? then Err(chunkChars.error)
        else
          var recursive := if cli.recursive.Some? then cli.recursive.value
                           else Truthy(GetOr(raw, "recursive", Bool(true)));
          Ok(AppConfig(
            RStripChar(Setting(cli.baseUrl, env.baseUrl, Get(raw, "base_url"), DefaultBaseUrl, render), '/'),
            Setting(cli.apiKey, env.apiKey, Get(raw, "api_key"), "", render),
            Setting(cli.model, env.model, Get(raw, "model"), DefaultModel, render),
            Setting(cli.systemPrompt, env.systemPrompt, Get(raw, "system_prompt"), DefaultSystemPrompt, render),
            AtLeast(MinMaxChars, maxChars.value),
            AtLeast(MinChunkChars, chunkChars.value),
            recursive))
  }

  /** The loaded base URL never ends with '/'. */
  lemma BaseUrlHasNoTrailingSlash(file: ConfigFile, path: string, cli: CliArgs, env: Env,
                                  render: Value -> string)
    requires LoadConfig(file, path, cli, env, render).Ok?
    ensures !EndsWith(LoadConfig(file, path, cli, env, render).value.baseUrl, "/")
  {
    var raw := ReadYaml(file, path).value;
    var s := Setting(cli.baseUrl, env.baseUrl, Get(raw, "base_url"), DefaultBaseUrl, render);
    NoTrailingChar(s, '/');
  }

  /** `s.rstrip(c)` does not end with `c`. */
  lemma NoTrailingChar(s: string, c: char)
    ensures !EndsWith(RStripChar(s, c), [c])
  {
    var r := RStripChar(s, c);
    TrimRightSpec(s, x => x == c);
    if |r| >= 1 {
      assert r[|r| - 1..] == [r[|r| - 1]];
    }
  }

  /** Without any command-line, environment or file value the defaults
      apply: the OpenAI endpoint, gpt-4o-mini, 120000 and 12000 characters,
      recursive scanning. */
  lemma DefaultsApply(path: string, render: Value -> string)
    ensures var none := CliArgs(None, None, None, None, None, None, None);
      LoadConfig(Document(Object(map[])), path, none, Env(None, None, None, None), render)
      == Ok(AppConfig(DefaultBaseUrl, "", DefaultModel, DefaultSystemPrompt,
                      DefaultMaxChars, DefaultChunkChars, true))
  {
    var u := DefaultBaseUrl;
    assert u[|u| - 1] != '/';
  }
}
