/**
 * The profile configuration and its version migration.
 *
 * A configuration is a map from option keys to JSON-like values. Stored
 * files from version 1 to 11 are upgraded one version at a time to version
 * 12: each step sets the version, adds options with their defaults and
 * renames options whose meaning was kept. A lookup the source performs with
 * `dict[key]` on a missing key raises `KeyError`; here it is a `Failure`.
 *
 * The provider registry is a parameter of the migration, because the
 * registry the source ships has no default rerank model, which makes every
 * upgrade that passes through version 7 fail (see `ShippedRegistryBreaksV7`).
 */
module Config {
  import opened Wrappers

  /**
   * Option keys. The first group is the current schema, the second group
   * the names earlier versions used; `Other` is any further key a user put
   * into the file, under a name none of the listed keys has.
   */
  datatype Key =
    | ConfigVersion | McpServerHost | McpServerPort
    | OcrStrategy | OcrAutoThreshold | ImageOcr | ImageEntityExtract
    | ChunkLinesBlock | ChunkWordsTarget | QdrantServerUrl | QdrantCollection
    | RetrieveScoreMin | RetrieveChunksMax | RerankChunksMax | ExpandChunksRadius
    | MaxWorkersIngest | MaxWorkersVision | MaxWorkersEmbed
    | AiProvider | AiServerUrl | AiModelChunk | AiModelEmbed | AiModelRerank
    | AiModelQuery | AiModelVision | AiVectorSize | AiTemperatureQuery
    | OcrModeStrict | OpenaiModelChunk | OpenaiModelEmbed | OpenaiModelQuery
    | OpenaiModelVision | QdrantVectorSize | OpenaiTempQuery
    | QdrantScoreMin | QdrantChunksMax
    | Other(name: string)

  datatype Value = Str(s: string) | Int(i: int) | Real(x: real) | Bool(b: bool) | Null

  type Conf = map<Key, Value>

  /** Provider name to that provider's option defaults. */
  type Registry = map<Value, map<Key, Value>>

  /** What went wrong: a missing key, a value with no entry, a version that is no number. */
  datatype Error = KeyError(key: Key) | ValueKeyError(value: Value) | VersionNotNumber(version: Value)

  const LatestVersion: int := 12

  /** The defaults of a new profile, before the prompts fill in provider and OCR strategy. */
  function DefaultConfig(k: Key): (r: Option<Value>)
    ensures r.None? <==> k.Other? || k in LegacyKeys()
    ensures k == ConfigVersion ==> r == Some(Int(LatestVersion))
  {
    match k
    case ConfigVersion => Some(Int(12))
    case McpServerHost => Some(Str("127.0.0.1"))
    case McpServerPort => Some(Int(8008))
    case OcrStrategy => Some(Str(""))
    case OcrAutoThreshold => Some(Int(32))
    case ImageOcr => Some(Str("true"))
    case ImageEntityExtract => Some(Str("true"))
    case ChunkLinesBlock => Some(Int(100))
    case ChunkWordsTarget => Some(Int(200))
    case QdrantServerUrl => Some(Str("http://localhost:6333"))
    case QdrantCollection => Some(Str("archive-agent"))
    case RetrieveScoreMin => Some(Real(0.1))
    case RetrieveChunksMax => Some(Int(40))
    case RerankChunksMax => Some(Int(30))
    case ExpandChunksRadius => Some(Int(2))
    case MaxWorkersIngest => Some(Int(4))
    case MaxWorkersVision => Some(Int(16))
    case MaxWorkersEmbed => Some(Int(16))
    case AiProvider => Some(Str(""))
    case AiServerUrl => Some(Str(""))
    case AiModelChunk => Some(Str(""))
    case AiModelEmbed => Some(Str(""))
    case AiModelRerank => Some(Str(""))
    case AiModelQuery => Some(Str(""))
    case AiModelVision => Some(Str(""))
    case AiVectorSize => Some(Int(0))
    case AiTemperatureQuery => Some(Real(0.0))
    case _ => None
  }

  /** Keys of earlier versions that the migration renames away. */
  function LegacyKeys(): (r: set<Key>)
  {
    {OcrModeStrict, OpenaiModelChunk, OpenaiModelEmbed, OpenaiModelQuery, OpenaiModelVision,
     QdrantVectorSize, OpenaiTempQuery, QdrantScoreMin, QdrantChunksMax}
  }

  /** The provider registry as shipped: OpenAI and Ollama, without rerank models. */
  function ShippedRegistry(): (r: Registry)
  {
    map[
      Str("openai") := map[
        AiProvider := Str("openai"),
        AiServerUrl := Str("https://api.openai.com/v1"),
        AiModelChunk := Str("gpt-4o-2024-08-06"),
        AiModelEmbed := Str("text-embedding-3-small"),
        AiModelQuery := Str("gpt-4o-2024-08-06"),
        AiModelVision := Str("gpt-4o-2024-08-06"),
        AiVectorSize := Int(1536),
        AiTemperatureQuery := Real(1.0)],
      Str("ollama") := map[
        AiProvider := Str("ollama"),
        AiServerUrl := Str("http://localhost:11434"),
        AiModelChunk := Str("deepseek-coder:6.7b-instruct"),
        AiModelEmbed := Str("nomic-embed-text"),
        AiModelQuery := Str("deepseek-coder:6.7b-instruct"),
        AiModelVision := Str("llava"),
        AiVectorSize := Int(768),
        AiTemperatureQuery := Real(1.0)]
    ]
  }

  /** The server URL the version-5 step derives from the provider. */
  function ServerUrls(): (r: map<Value, Value>)
  {
    map[Str("openai") := Str("https://api.openai.com/v1"), Str("ollama") := Str("http://localhost:11434")]
  }

  /** The version-4 translation of the old boolean OCR flag into a strategy. */
  function OcrTranslation(): (r: map<Value, Value>)
  {
    map[Str("false") := Str("relaxed"), Str("true") := Str("strict")]
  }

  // ---------------------------------------------------------------------
  // The three edit primitives
  // ---------------------------------------------------------------------

  /** `b` holds option `k` exactly as `a` does. */
  predicate Keeps(a: Conf, b: Conf, k: Key)
  {
    (k in a <==> k in b) && (k in a ==> a[k] == b[k])
  }

  function SetVersion(c: Conf, n: int): (r: Conf)
    ensures r.Keys == c.Keys + {ConfigVersion}
    ensures r[ConfigVersion] == Int(n)
    ensures forall k :: k != ConfigVersion && k in c ==> r[k] == c[k]
  {
    c[ConfigVersion := Int(n)]
  }

  /**
   * Stores `key` with an explicit default when one is given (Python's
   * `None` is `Option.None`), else with the profile default; a key without
   * a profile default is a `KeyError`.
   */
  function AddOption(c: Conf, key: Key, default: Option<Value>): (r: Result<Conf, Error>)
    ensures r.Failure? <==> default.None? && DefaultConfig(key).None?
    ensures r.Failure? ==> r.error == KeyError(key)
    ensures default.Some? ==> r == Success(c[key := default.value])
    ensures default.None? && r.Success? ==> r.value == c[key := DefaultConfig(key).value]
  {
    if default.Some? then Success(c[key := default.value])
    else match DefaultConfig(key)
      case None => Failure(KeyError(key))
      case Some(v) => Success(c[key := v])
  }

  /**
   * Moves the value of `src` to `dst`, through `translate` when one is
   * given. A missing `src` key, or a value `translate` has no entry for,
   * is an error.
   */
  function RenameOption(c: Conf, src: Key, dst: Key, translate: Option<map<Value, Value>>): (r: Result<Conf, Error>)
    ensures r.Success? <==> src in c && (translate.None? || c[src] in translate.value)
    ensures src !in c ==> r == Failure(KeyError(src))
    ensures r.Success? && src != dst ==>
      r.value.Keys == c.Keys - {src} + {dst}
      && r.value[dst] == (if translate.Some? then translate.value[c[src]] else c[src])
      && forall k :: k in c && k != src && k != dst ==> r.value[k] == c[k]
    ensures r.Success? ==> forall k :: k != src && k != dst ==> Keeps(c, r.value, k)
  {
    if src !in c then Failure(KeyError(src))
    else if translate.Some? && c[src] !in translate.value then Failure(ValueKeyError(c[src]))
    else
      var v := if translate.Some? then translate.value[c[src]] else c[src];
      Success(c[dst := v] - {src})
  }

  /**
   * The version a stored file declares, as the steps see it: a file without
   * one is version 1, and each step `n` runs when the stored version is
   * below `n`. Python compares booleans and floats with `n` numerically, so
   * `true` acts as 1, `false` as 0, and a float as its floor (for an
   * integer `n`, `x < n` exactly when `floor(x) < n`). A string or `null`
   * cannot be compared with an integer (`TypeError`).
   */
  function StartVersion(c: Conf): (r: Result<int, Error>)
    ensures ConfigVersion !in c ==> r == Success(1)
    ensures ConfigVersion in c && c[ConfigVersion].Int? ==> r == Success(c[ConfigVersion].i)
    ensures ConfigVersion in c && c[ConfigVersion].Bool? ==> r == Success(if c[ConfigVersion].b then 1 else 0)
    ensures ConfigVersion in c && c[ConfigVersion].Real? ==>
      r.Success? && r.value as real <= c[ConfigVersion].x < r.value as real + 1.0
    ensures r.Failure? <==> ConfigVersion in c && (c[ConfigVersion].Str? || c[ConfigVersion].Null?)
    ensures r.Failure? ==> r == Failure(VersionNotNumber(c[ConfigVersion]))
  {
    if ConfigVersion !in c then Success(1)
    else match c[ConfigVersion]
      case Int(i) => Success(i)
      case Bool(b) => Success(if b then 1 else 0)
      case Real(x) => Success(x.Floor)
      case v => Failure(VersionNotNumber(v))
  }

  /** The numeric comparison each step makes agrees with the floor `StartVersion` takes. */
  lemma RealVersionComparison(x: real, n: int)
    ensures x < n as real <==> x.Floor < n
  {
  }

  // ---------------------------------------------------------------------
  // The migration steps
  // ---------------------------------------------------------------------

  /** Plain renames, applied in order, stopping at the first missing key. */
  function Renames(c: Conf, moves: seq<(Key, Key)>): (r: Result<Conf, Error>)
    decreases |moves|
  {
    if |moves| == 0 then Success(c)
    else
      var c :- RenameOption(c, moves[0].0, moves[0].1, None);
      Renames(c, moves[1..])
  }

  function Sources(moves: seq<(Key, Key)>): (r: set<Key>)
    decreases |moves|
  {
    if |moves| == 0 then {} else {moves[0].0} + Sources(moves[1..])
  }

  function Targets(moves: seq<(Key, Key)>): (r: set<Key>)
    decreases |moves|
  {
    if |moves| == 0 then {} else {moves[0].1} + Targets(moves[1..])
  }

  /** The v4 renames that made the OpenAI-specific option names generic. */
  function V4Moves(): (r: seq<(Key, Key)>)
  {
    [(OpenaiModelChunk, AiModelChunk), (OpenaiModelEmbed, AiModelEmbed),
     (OpenaiModelQuery, AiModelQuery), (OpenaiModelVision, AiModelVision),
     (QdrantVectorSize, AiVectorSize), (OpenaiTempQuery, AiTemperatureQuery)]
  }

  /** The v7 renames of the retrieval options. */
  function V7Moves(): (r: seq<(Key, Key)>)
  {
    [(QdrantScoreMin, RetrieveScoreMin), (QdrantChunksMax, RetrieveChunksMax)]
  }

  /** v4: a provider option, the OpenAI-specific names made generic, the OCR flag made a strategy. */
  function V4(c: Conf): (r: Result<Conf, Error>)
  {
    var c :- AddOption(c, AiProvider, Some(Str("openai")));
    var c :- Renames(c, V4Moves());
    RenameOption(c, OcrModeStrict, OcrStrategy, Some(OcrTranslation()))
  }

  /** v5: the server URL of the configured provider. */
  function V5(c: Conf): (r: Result<Conf, Error>)
  {
    if AiProvider !in c then Failure(KeyError(AiProvider))
    else if c[AiProvider] !in ServerUrls() then Failure(ValueKeyError(c[AiProvider]))
    else AddOption(c, AiServerUrl, Some(ServerUrls()[c[AiProvider]]))
  }

  /** v6: the automatic-OCR threshold, and every strategy reset to `auto`. */
  function V6(c: Conf): (r: Result<Conf, Error>)
  {
    var c :- AddOption(c, OcrAutoThreshold, None);
    Success(c[OcrStrategy := Str("auto")])
  }

  /** The rerank model the registry lists for the configured provider. */
  function RerankModel(c: Conf, reg: Registry): (r: Result<Value, Error>)
    ensures r.Success? <==> AiProvider in c && c[AiProvider] in reg && AiModelRerank in reg[c[AiProvider]]
    ensures r.Success? ==> r.value == reg[c[AiProvider]][AiModelRerank]
  {
    if AiProvider !in c then Failure(KeyError(AiProvider))
    else if c[AiProvider] !in reg then Failure(ValueKeyError(c[AiProvider]))
    else if AiModelRerank !in reg[c[AiProvider]] then Failure(KeyError(AiModelRerank))
    else Success(reg[c[AiProvider]][AiModelRerank])
  }

  /** A registry value used as an explicit default; a null one defers to the profile default. */
  function AsDefault(v: Value): (r: Option<Value>)
    ensures r.None? <==> v.Null?
  {
    if v.Null? then None else Some(v)
  }

  /** The v7 options that come from the profile defaults, and the v7 renames. */
  function V7Options(c: Conf): (r: Result<Conf, Error>)
  {
    var c :- AddOption(c, RerankChunksMax, None);
    var c :- AddOption(c, ExpandChunksRadius, None);
    Renames(c, V7Moves())
  }

  /** v7: the provider's rerank model and the retrieval options under their new names. */
  function V7(c: Conf, reg: Registry): (r: Result<Conf, Error>)
  {
    var model :- RerankModel(c, reg);
    var c :- AddOption(c, AiModelRerank, AsDefault(model));
    V7Options(c)
  }

  /** v11: the three worker-pool sizes. */
  function V11(c: Conf): (r: Result<Conf, Error>)
  {
    var c :- AddOption(c, MaxWorkersIngest, None);
    var c :- AddOption(c, MaxWorkersVision, None);
    AddOption(c, MaxWorkersEmbed, None)
  }

  /** The steps that add a single option: v2, v3, v8, v9, v10 and v12. */
  predicate SingleStep(n: int)
  {
    n != 4 && n != 5 && n != 6 && n != 7 && n != 11
  }

  /** The option a single-option step adds, with its explicit default if any. */
  function SingleOption(n: int): (r: (Key, Option<Value>))
  {
    if n == 2 then (OcrModeStrict, Some(Str("false")))
    else if n == 3 then (McpServerPort, None)
    else if n == 8 then (ImageEntityExtract, None)
    else if n == 9 then (ChunkWordsTarget, None)
    else if n == 10 then (ImageOcr, None)
    else (McpServerHost, None)
  }

  /** The step that brings a configuration to version `n`. */
  function Step(n: int, c: Conf, reg: Registry): (r: Result<Conf, Error>)
    requires 2 <= n <= LatestVersion
  {
    StepOn(n, SetVersion(c, n), reg)
  }

  /** The work of step `n` on a configuration already marked with version `n`. */
  function StepOn(n: int, c: Conf, reg: Registry): (r: Result<Conf, Error>)
  {
    if n == 4 then V4(c)
    else if n == 5 then V5(c)
    else if n == 6 then V6(c)
    else if n == 7 then V7(c, reg)
    else if n == 11 then V11(c)
    else AddOption(c, SingleOption(n).0, SingleOption(n).1)
  }

  /** The steps from version `n` up to version `last`, stopping at the first error. */
  function Run(c: Conf, n: int, last: int, reg: Registry): (r: Result<Conf, Error>)
    requires 2 <= n && last <= LatestVersion
    decreases last - n + 1
  {
    if n > last then Success(c)
    else
      var c :- Step(n, c, reg);
      Run(c, n + 1, last, reg)
  }

  /**
   * Upgrades a stored configuration to the latest version; the flag says
   * whether any step ran. A configuration at or beyond the latest version
   * is returned as it is.
   */
  function Upgrade(c: Conf, reg: Registry): (r: Result<(Conf, bool), Error>)
    ensures StartVersion(c).Failure? ==> r == Failure(StartVersion(c).error)
    ensures StartVersion(c).Success? && StartVersion(c).value >= LatestVersion ==> r == Success((c, false))
    ensures r.Success? ==> (r.value.1 <==> StartVersion(c).value < LatestVersion)
  {
    var v :- StartVersion(c);
    if v >= LatestVersion then Success((c, false))
    else
      var c :- Run(c, if v < 2 then 2 else v + 1, LatestVersion, reg);
      Success((c, true))
  }

  // ---------------------------------------------------------------------
  // What each step touches
  // ---------------------------------------------------------------------

  /** The options the renames of v4 read or write. */
  predicate V4Renamed(k: Key)
  {
    k == OpenaiModelChunk || k == OpenaiModelEmbed || k == OpenaiModelQuery
    || k == OpenaiModelVision || k == QdrantVectorSize || k == OpenaiTempQuery
    || k == AiModelChunk || k == AiModelEmbed || k == AiModelQuery
    || k == AiModelVision || k == AiVectorSize || k == AiTemperatureQuery
  }

  /** The options the renames of v7 read or write. */
  predicate V7Renamed(k: Key)
  {
    k == QdrantScoreMin || k == QdrantChunksMax || k == RetrieveScoreMin || k == RetrieveChunksMax
  }

  /** Whether step `n` stores or removes option `k`. */
  predicate Touches(n: int, k: Key)
  {
    k == ConfigVersion
    || (SingleStep(n) && k == SingleOption(n).0)
    || (n == 4 && (k == AiProvider || k == OcrModeStrict || k == OcrStrategy || V4Renamed(k)))
    || (n == 5 && k == AiServerUrl)
    || (n == 6 && (k == OcrAutoThreshold || k == OcrStrategy))
    || (n == 7 && (k == AiModelRerank || k == RerankChunksMax || k == ExpandChunksRadius || V7Renamed(k)))
    || (n == 11 && (k == MaxWorkersIngest || k == MaxWorkersVision || k == MaxWorkersEmbed))
  }

  lemma V4MovesKeys()
    ensures Sources(V4Moves()) == {OpenaiModelChunk, OpenaiModelEmbed, OpenaiModelQuery,
                                   OpenaiModelVision, QdrantVectorSize, OpenaiTempQuery}
    ensures Targets(V4Moves()) == {AiModelChunk, AiModelEmbed, AiModelQuery,
                                   AiModelVision, AiVectorSize, AiTemperatureQuery}
  {
    var m := V4Moves();
    assert m[1..][1..][1..][1..][1..][1..] == [];
  }

  lemma V7MovesKeys()
    ensures Sources(V7Moves()) == {QdrantScoreMin, QdrantChunksMax}
    ensures Targets(V7Moves()) == {RetrieveScoreMin, RetrieveChunksMax}
  {
    var m := V7Moves();
    assert m[1..][1..] == [];
  }

  lemma {:induction false} RenamesKeeps(c: Conf, moves: seq<(Key, Key)>, k: Key)
    requires Renames(c, moves).Success?
    requires k !in Sources(moves) && k !in Targets(moves)
    ensures Keeps(c, Renames(c, moves).value, k)
    decreases |moves|
  {
    if |moves| > 0 {
      RenamesKeeps(RenameOption(c, moves[0].0, moves[0].1, None).value, moves[1..], k);
    }
  }

  /** No source of a rename is read twice. */
  predicate DistinctSources(moves: seq<(Key, Key)>)
    decreases |moves|
  {
    |moves| == 0 || (moves[0].0 !in Sources(moves[1..]) && DistinctSources(moves[1..]))
  }

  /** Renames whose sources are all present and pairwise distinct succeed. */
  lemma {:induction false} RenamesSucceed(c: Conf, moves: seq<(Key, Key)>)
    requires Sources(moves) <= c.Keys
    requires DistinctSources(moves)
    ensures Renames(c, moves).Success?
    decreases |moves|
  {
    if |moves| > 0 {
      var c1 := RenameOption(c, moves[0].0, moves[0].1, None).value;
      assert Sources(moves[1..]) <= c1.Keys;
      RenamesSucceed(c1, moves[1..]);
    }
  }

  lemma V4MovesDistinct()
    ensures DistinctSources(V4Moves())
  {
    var m := V4Moves();
    assert m[1..][1..][1..][1..][1..][1..] == [];
  }

  lemma V7MovesDistinct()
    ensures DistinctSources(V7Moves())
  {
    var m := V7Moves();
    assert m[1..][1..] == [];
  }

  lemma V4MovesAvoid(k: Key)
    requires !V4Renamed(k)
    ensures k !in Sources(V4Moves()) && k !in Targets(V4Moves())
  {
    V4MovesKeys();
  }

  lemma V7MovesAvoid(k: Key)
    requires !V7Renamed(k)
    ensures k !in Sources(V7Moves()) && k !in Targets(V7Moves())
  {
    V7MovesKeys();
  }

  lemma V4Keeps(c: Conf, k: Key)
    requires V4(c).Success?
    requires k == ConfigVersion || !Touches(4, k)
    ensures Keeps(c, V4(c).value, k)
  {
    var c1 := c[AiProvider := Str("openai")];
    assert Keeps(c, c1, k);
    var r2 := Renames(c1, V4Moves());
    assert r2.Success?;
    V4MovesAvoid(k);
    RenamesKeeps(c1, V4Moves(), k);
    var r3 := RenameOption(r2.value, OcrModeStrict, OcrStrategy, Some(OcrTranslation()));
    assert V4(c) == r3;
    assert Keeps(r2.value, r3.value, k);
  }

  lemma AddOptionKeeps(c: Conf, key: Key, default: Option<Value>, k: Key)
    requires AddOption(c, key, default).Success?
    requires k != key
    ensures Keeps(c, AddOption(c, key, default).value, k)
  {
  }

  lemma V7OptionsKeeps(c: Conf, k: Key)
    requires V7Options(c).Success?
    requires k == ConfigVersion || !Touches(7, k)
    ensures Keeps(c, V7Options(c).value, k)
  {
    V7Defaults();
    var c1 := AddOption(c, RerankChunksMax, None).value;
    AddOptionKeeps(c, RerankChunksMax, None, k);
    var c2 := AddOption(c1, ExpandChunksRadius, None).value;
    AddOptionKeeps(c1, ExpandChunksRadius, None, k);
    V7MovesAvoid(k);
    RenamesKeeps(c2, V7Moves(), k);
  }

  lemma V7Keeps(c: Conf, reg: Registry, k: Key)
    requires V7(c, reg).Success?
    requires k == ConfigVersion || !Touches(7, k)
    ensures Keeps(c, V7(c, reg).value, k)
  {
    var c1 := AddOption(c, AiModelRerank, AsDefault(RerankModel(c, reg).value)).value;
    V7OptionsKeeps(c1, k);
  }

  lemma StepFromSingle(n: int, c: Conf, reg: Registry, k: Key)
    requires 2 <= n <= LatestVersion && SingleStep(n)
    requires Step(n, c, reg).Success?
    requires k == ConfigVersion || !Touches(n, k)
    ensures Keeps(SetVersion(c, n), Step(n, c, reg).value, k)
  {
    SingleStepIs(n, c, reg);
    AddOptionKeeps(SetVersion(c, n), SingleOption(n).0, SingleOption(n).1, k);
  }

  lemma SingleStepIs(n: int, c: Conf, reg: Registry)
    requires 2 <= n <= LatestVersion && SingleStep(n)
    ensures Step(n, c, reg) == AddOption(SetVersion(c, n), SingleOption(n).0, SingleOption(n).1)
  {
  }

  lemma StepFrom5(c: Conf, reg: Registry, k: Key)
    requires Step(5, c, reg).Success?
    requires k == ConfigVersion || !Touches(5, k)
    ensures Keeps(SetVersion(c, 5), Step(5, c, reg).value, k)
  {
  }

  lemma StepFrom6(c: Conf, reg: Registry, k: Key)
    requires Step(6, c, reg).Success?
    requires k == ConfigVersion || !Touches(6, k)
    ensures Keeps(SetVersion(c, 6), Step(6, c, reg).value, k)
  {
  }

  lemma StepFrom11(c: Conf, reg: Registry, k: Key)
    requires Step(11, c, reg).Success?
    requires k == ConfigVersion || !Touches(11, k)
    ensures Keeps(SetVersion(c, 11), Step(11, c, reg).value, k)
  {
    Step11Is(c, reg);
    V11Keeps(SetVersion(c, 11), k);
  }

  lemma V11Keeps(c: Conf, k: Key)
    requires V11(c).Success?
    requires k == ConfigVersion || !Touches(11, k)
    ensures Keeps(c, V11(c).value, k)
  {
    var c1 := AddOption(c, MaxWorkersIngest, None).value;
    AddOptionKeeps(c, MaxWorkersIngest, None, k);
    var c2 := AddOption(c1, MaxWorkersVision, None).value;
    AddOptionKeeps(c1, MaxWorkersVision, None, k);
    AddOptionKeeps(c2, MaxWorkersEmbed, None, k);
  }

  lemma V11Defaults()
    ensures DefaultConfig(MaxWorkersIngest) == Some(Int(4))
    ensures DefaultConfig(MaxWorkersVision) == Some(Int(16))
    ensures DefaultConfig(MaxWorkersEmbed) == Some(Int(16))
  {
  }

  lemma StepFrom4(c: Conf, reg: Registry, k: Key)
    requires Step(4, c, reg).Success?
    requires k == ConfigVersion || !Touches(4, k)
    ensures Keeps(SetVersion(c, 4), Step(4, c, reg).value, k)
  {
    V4Keeps(SetVersion(c, 4), k);
  }

  lemma StepFrom7(c: Conf, reg: Registry, k: Key)
    requires Step(7, c, reg).Success?
    requires k == ConfigVersion || !Touches(7, k)
    ensures Keeps(SetVersion(c, 7), Step(7, c, reg).value, k)
  {
    V7Keeps(SetVersion(c, 7), reg, k);
  }

  /**
   * After the version is set, a step keeps the version and every option it
   * does not touch.
   */
  lemma StepFrom(n: int, c: Conf, reg: Registry, k: Key)
    requires 2 <= n <= LatestVersion
    requires Step(n, c, reg).Success?
    requires k == ConfigVersion || !Touches(n, k)
    ensures Keeps(SetVersion(c, n), Step(n, c, reg).value, k)
  {
    if n == 4 {
      StepFrom4(c, reg, k);
    } else if n == 5 {
      StepFrom5(c, reg, k);
    } else if n == 6 {
      StepFrom6(c, reg, k);
    } else if n == 7 {
      StepFrom7(c, reg, k);
    } else if n == 11 {
      StepFrom11(c, reg, k);
    } else {
      StepFromSingle(n, c, reg, k);
    }
  }

  /** A successful step leaves every option it does not touch as it was. */
  lemma StepKeeps(n: int, c: Conf, reg: Registry, k: Key)
    requires 2 <= n <= LatestVersion
    requires Step(n, c, reg).Success?
    requires !Touches(n, k)
    ensures Keeps(c, Step(n, c, reg).value, k)
  {
    StepFrom(n, c, reg, k);
  }

  /** A successful step records its own version. */
  lemma StepVersion(n: int, c: Conf, reg: Registry)
    requires 2 <= n <= LatestVersion
    requires Step(n, c, reg).Success?
    ensures ConfigVersion in Step(n, c, reg).value
    ensures Step(n, c, reg).value[ConfigVersion] == Int(n)
  {
    StepFrom(n, c, reg, ConfigVersion);
  }

  // ---------------------------------------------------------------------
  // Runs of steps
  // ---------------------------------------------------------------------

  /** A successful run leaves every option none of its steps touches as it was. */
  lemma {:induction false} RunKeeps(c: Conf, n: int, last: int, reg: Registry, k: Key)
    requires 2 <= n && last <= LatestVersion
    requires Run(c, n, last, reg).Success?
    requires forall m :: n <= m <= last ==> !Touches(m, k)
    ensures Keeps(c, Run(c, n, last, reg).value, k)
    decreases last - n + 1
  {
    if n <= last {
      StepKeeps(n, c, reg, k);
      RunKeeps(Step(n, c, reg).value, n + 1, last, reg, k);
    }
  }

  /** A successful run took its first step successfully and went on from there. */
  lemma RunFirstStep(c: Conf, n: int, last: int, reg: Registry)
    requires 2 <= n <= last <= LatestVersion
    requires Run(c, n, last, reg).Success?
    ensures Step(n, c, reg).Success?
    ensures Run(c, n, last, reg) == Run(Step(n, c, reg).value, n + 1, last, reg)
  {
  }

  /** A successful run ends at the version of its last step. */
  lemma RunVersion(c: Conf, n: int, last: int, reg: Registry)
    requires 2 <= n <= last <= LatestVersion
    requires Run(c, n, last, reg).Success?
    ensures ConfigVersion in Run(c, n, last, reg).value
    ensures Run(c, n, last, reg).value[ConfigVersion] == Int(last)
  {
    RunSplit(c, n, last, last, reg);
    var before := Run(c, n, last - 1, reg).value;
    RunFirstStep(before, last, last, reg);
    RunLastStep(before, last, reg);
  }

  /** A run of one step ends at that step's version. */
  lemma RunLastStep(c: Conf, n: int, reg: Registry)
    requires 2 <= n <= LatestVersion
    requires Step(n, c, reg).Success?
    ensures Run(Step(n, c, reg).value, n + 1, n, reg) == Step(n, c, reg)
    ensures ConfigVersion in Step(n, c, reg).value
    ensures Step(n, c, reg).value[ConfigVersion] == Int(n)
  {
    StepVersion(n, c, reg);
  }

  /** Running steps `n..last` is running `n..m-1` and then `m..last`. */
  lemma {:induction false} RunSplit(c: Conf, n: int, m: int, last: int, reg: Registry)
    requires 2 <= n <= m <= last + 1 && last <= LatestVersion
    ensures Run(c, n, m - 1, reg).Failure? ==> Run(c, n, last, reg) == Run(c, n, m - 1, reg)
    ensures Run(c, n, m - 1, reg).Success? ==>
      Run(c, n, last, reg) == Run(Run(c, n, m - 1, reg).value, m, last, reg)
    decreases m - n
  {
    if n < m && Step(n, c, reg).Success? {
      RunSplit(Step(n, c, reg).value, n + 1, m, last, reg);
    }
  }

  /** The steps from v8 on only add options, so they cannot fail. */
  lemma {:induction false} LateStepsSucceed(c: Conf, n: int, reg: Registry)
    requires 8 <= n
    ensures Run(c, n, LatestVersion, reg).Success?
    decreases LatestVersion - n
  {
    if n <= LatestVersion {
      LateStepSucceeds(n, c, reg);
      LateStepsSucceed(Step(n, c, reg).value, n + 1, reg);
    }
  }

  // ---------------------------------------------------------------------
  // Properties of the whole upgrade
  // ---------------------------------------------------------------------

  /**
   * A successful upgrade of a file below the latest version writes the
   * latest version; a file at or above it is left as it is. Either way the
   * result reads as at least the latest version.
   */
  lemma UpgradeReachesLatest(c: Conf, reg: Registry)
    requires Upgrade(c, reg).Success?
    ensures var v := StartVersion(c).value;
      var c1 := Upgrade(c, reg).value.0;
      (v < LatestVersion ==> ConfigVersion in c1 && c1[ConfigVersion] == Int(LatestVersion))
      && StartVersion(c1) == Success(if v < LatestVersion then LatestVersion else v)
  {
    var v := StartVersion(c).value;
    if v < LatestVersion {
      RunVersion(c, if v < 2 then 2 else v + 1, LatestVersion, reg);
    }
  }

  /** Upgrading an upgraded configuration changes nothing and reports no upgrade. */
  lemma UpgradeIdempotent(c: Conf, reg: Registry)
    requires Upgrade(c, reg).Success?
    ensures Upgrade(Upgrade(c, reg).value.0, reg) == Success((Upgrade(c, reg).value.0, false))
  {
    UpgradeReachesLatest(c, reg);
  }

  /** A file without a version upgrades exactly like one that says version 1. */
  lemma MissingVersionIsOne(c: Conf, reg: Registry)
    ensures Upgrade(c - {ConfigVersion}, reg) == Upgrade(c[ConfigVersion := Int(1)], reg)
  {
    var a := c - {ConfigVersion};
    var b := c[ConfigVersion := Int(1)];
    assert SetVersion(a, 2) == SetVersion(b, 2);
    assert Step(2, a, reg) == Step(2, b, reg);
    assert Run(a, 2, LatestVersion, reg) == Run(b, 2, LatestVersion, reg);
  }

  /** The options some step stores or removes, besides the version. */
  predicate Migrated(k: Key)
  {
    k == OcrModeStrict || k == McpServerPort || k == ImageEntityExtract || k == ChunkWordsTarget
    || k == ImageOcr || k == McpServerHost || k == AiProvider || k == OcrStrategy || V4Renamed(k)
    || k == AiServerUrl || k == OcrAutoThreshold || k == AiModelRerank || k == RerankChunksMax
    || k == ExpandChunksRadius || V7Renamed(k)
    || k == MaxWorkersIngest || k == MaxWorkersVision || k == MaxWorkersEmbed
  }

  lemma SingleOptionMigrated(n: int)
    ensures Migrated(SingleOption(n).0)
  {
  }

  /** Every option a step touches, other than the version, is a migrated one. */
  lemma TouchesMigrated(m: int, k: Key)
    requires Touches(m, k) && k != ConfigVersion
    ensures Migrated(k)
  {
    SingleOptionMigrated(m);
  }

  /** No step touches options the migration does not know about, nor three it never changed. */
  lemma NeverTouched(k: Key, m: int)
    requires k.Other? || k == ChunkLinesBlock || k == QdrantServerUrl || k == QdrantCollection
    ensures !Touches(m, k)
  {
    if Touches(m, k) {
      TouchesMigrated(m, k);
      assert false;
    }
  }

  /** The upgrade leaves unknown options, and options no version changed, as they were. */
  lemma UpgradeKeepsOthers(c: Conf, reg: Registry, k: Key)
    requires Upgrade(c, reg).Success?
    requires k.Other? || k == ChunkLinesBlock || k == QdrantServerUrl || k == QdrantCollection
    ensures Keeps(c, Upgrade(c, reg).value.0, k)
  {
    var v := StartVersion(c).value;
    if v < LatestVersion {
      forall m | 2 <= m <= LatestVersion
        ensures !Touches(m, k)
      {
        NeverTouched(k, m);
      }
      RunKeeps(c, if v < 2 then 2 else v + 1, LatestVersion, reg, k);
    }
  }

  /** The options the v4 renames read. */
  predicate HasV4Sources(c: Conf)
  {
    OpenaiModelChunk in c && OpenaiModelEmbed in c && OpenaiModelQuery in c
    && OpenaiModelVision in c && QdrantVectorSize in c && OpenaiTempQuery in c
  }

  /**
   * With its sources present, v4 selects OpenAI, moves the model options to
   * their generic names and turns the OCR flag into a strategy.
   */
  lemma V4Succeeds(c: Conf)
    requires HasV4Sources(c)
    requires OcrModeStrict in c && c[OcrModeStrict] in OcrTranslation()
    ensures V4(c).Success?
    ensures OcrModeStrict !in V4(c).value
    ensures OcrStrategy in V4(c).value && V4(c).value[OcrStrategy] == OcrTranslation()[c[OcrModeStrict]]
  {
    var c1 := c[AiProvider := Str("openai")];
    V4RenamesSucceed(c1);
    V4Unfold(c);
    V4MovesAvoid(OcrModeStrict);
    RenamesKeeps(c1, V4Moves(), OcrModeStrict);
  }

  /** v4 makes OpenAI the provider, the only one there was before it. */
  lemma V4SetsProvider(c: Conf)
    requires HasV4Sources(c)
    requires V4(c).Success?
    ensures AiProvider in V4(c).value && V4(c).value[AiProvider] == Str("openai")
  {
    var c1 := c[AiProvider := Str("openai")];
    V4RenamesSucceed(c1);
    V4Unfold(c);
    V4MovesAvoid(AiProvider);
    RenamesKeeps(c1, V4Moves(), AiProvider);
  }

  /** v4 once the provider is set and the renames have gone through. */
  lemma V4Unfold(c: Conf)
    requires Renames(c[AiProvider := Str("openai")], V4Moves()).Success?
    ensures V4(c) == RenameOption(Renames(c[AiProvider := Str("openai")], V4Moves()).value,
                                  OcrModeStrict, OcrStrategy, Some(OcrTranslation()))
  {
  }

  lemma V4RenamesSucceed(c: Conf)
    requires HasV4Sources(c)
    ensures Renames(c, V4Moves()).Success?
  {
    V4MovesKeys();
    V4MovesDistinct();
    RenamesSucceed(c, V4Moves());
  }

  /** At v5 the server URL follows the provider; only OpenAI and Ollama are known. */
  lemma ServerUrlByProvider(c: Conf, reg: Registry)
    ensures Step(5, c, reg).Success? <==>
      AiProvider in c && (c[AiProvider] == Str("openai") || c[AiProvider] == Str("ollama"))
    ensures AiProvider in c && c[AiProvider] == Str("openai") ==>
      Step(5, c, reg) == Success(SetVersion(c, 5)[AiServerUrl := Str("https://api.openai.com/v1")])
    ensures AiProvider in c && c[AiProvider] == Str("ollama") ==>
      Step(5, c, reg) == Success(SetVersion(c, 5)[AiServerUrl := Str("http://localhost:11434")])
  {
  }

  /** A successful v6 step sets the OCR strategy to `auto`. */
  lemma V6SetsAuto(c: Conf, reg: Registry)
    requires Step(6, c, reg).Success?
    ensures OcrStrategy in Step(6, c, reg).value && Step(6, c, reg).value[OcrStrategy] == Str("auto")
  {
  }

  /** A run that fails at no step runs its first step and then the rest. */
  lemma RunFirst(c: Conf, n: int, last: int, reg: Registry)
    requires 2 <= n <= last <= LatestVersion
    requires Run(c, n, last, reg).Success?
    ensures Step(n, c, reg).Success?
    ensures Run(c, n, last, reg) == Run(Step(n, c, reg).value, n + 1, last, reg)
  {
  }

  /** No step after v6 touches the OCR strategy. */
  lemma OcrStrategyLate(m: int)
    requires 7 <= m
    ensures !Touches(m, OcrStrategy)
  {
  }

  lemma {:induction false} RunSetsAuto(c: Conf, n: int, reg: Registry)
    requires 2 <= n <= 6
    requires Run(c, n, LatestVersion, reg).Success?
    ensures OcrStrategy in Run(c, n, LatestVersion, reg).value
    ensures Run(c, n, LatestVersion, reg).value[OcrStrategy] == Str("auto")
    decreases 6 - n
  {
    RunFirst(c, n, LatestVersion, reg);
    var c1 := Step(n, c, reg).value;
    if n < 6 {
      RunSetsAuto(c1, n + 1, reg);
    } else {
      V6SetsAuto(c, reg);
      forall m | 7 <= m <= LatestVersion
        ensures !Touches(m, OcrStrategy)
      {
        OcrStrategyLate(m);
      }
      RunKeeps(c1, 7, LatestVersion, reg, OcrStrategy);
    }
  }

  /** A successful upgrade from before v6 leaves the OCR strategy at `auto`. */
  lemma UpgradeSetsAutoOcr(c: Conf, reg: Registry)
    requires Upgrade(c, reg).Success?
    requires StartVersion(c).value < 6
    ensures OcrStrategy in Upgrade(c, reg).value.0
    ensures Upgrade(c, reg).value.0[OcrStrategy] == Str("auto")
  {
    var v := StartVersion(c).value;
    RunSetsAuto(c, if v < 2 then 2 else v + 1, reg);
  }

  // ---------------------------------------------------------------------
  // The shipped registry and the v7 step
  // ---------------------------------------------------------------------

  /** No provider of the registry names a rerank model. */
  predicate NoRerankDefault(reg: Registry)
  {
    forall p :: p in reg ==> AiModelRerank !in reg[p]
  }

  lemma ShippedRegistryHasNoRerank()
    ensures NoRerankDefault(ShippedRegistry())
  {
  }

  /** Without a rerank model in the registry the v7 step fails on every configuration. */
  lemma NoRerankV7Fails(c: Conf, reg: Registry)
    requires NoRerankDefault(reg)
    ensures Step(7, c, reg).Failure?
  {
    assert Step(7, c, reg) == V7(SetVersion(c, 7), reg);
  }

  /** A run stops at a failing step and otherwise goes on from the step's result. */
  lemma RunOnce(c: Conf, n: int, last: int, reg: Registry)
    requires 2 <= n <= last <= LatestVersion
    ensures Step(n, c, reg).Failure? ==> Run(c, n, last, reg).Failure?
    ensures Step(n, c, reg).Success? ==> Run(c, n, last, reg) == Run(Step(n, c, reg).value, n + 1, last, reg)
  {
  }

  lemma {:induction false} NoRerankRunFails(c: Conf, n: int, reg: Registry)
    requires 2 <= n <= 7
    requires NoRerankDefault(reg)
    ensures Run(c, n, LatestVersion, reg).Failure?
    decreases 7 - n
  {
    RunOnce(c, n, LatestVersion, reg);
    if n == 7 {
      NoRerankV7Fails(c, reg);
    } else if Step(n, c, reg).Success? {
      NoRerankRunFails(Step(n, c, reg).value, n + 1, reg);
    }
  }

  /** With the shipped registry, every upgrade from before v7 fails. */
  lemma ShippedRegistryBreaksV7(c: Conf)
    requires StartVersion(c).Success? && StartVersion(c).value < 7
    ensures Upgrade(c, ShippedRegistry()).Failure?
  {
    var v := StartVersion(c).value;
    ShippedRegistryHasNoRerank();
    NoRerankRunFails(c, if v < 2 then 2 else v + 1, ShippedRegistry());
  }

  /** A registry that names a rerank model for OpenAI, the provider v4 selects. */
  predicate HasRerankDefault(reg: Registry)
  {
    Str("openai") in reg && AiModelRerank in reg[Str("openai")]
  }

  /** The options a version-1 file carries that the v4 and v7 renames read. */
  predicate IsV1File(c: Conf)
  {
    HasV4Sources(c) && QdrantScoreMin in c && QdrantChunksMax in c
  }

  lemma V7RenamesSucceed(c: Conf)
    requires QdrantScoreMin in c && QdrantChunksMax in c
    ensures Renames(c, V7Moves()).Success?
  {
    V7MovesKeys();
    V7MovesDistinct();
    RenamesSucceed(c, V7Moves());
  }

  /** v7 once the rerank model is known. */
  lemma V7Unfold(c: Conf, reg: Registry)
    requires RerankModel(c, reg).Success?
    ensures AddOption(c, AiModelRerank, AsDefault(RerankModel(c, reg).value)).Success?
    ensures V7(c, reg) == V7Options(AddOption(c, AiModelRerank, AsDefault(RerankModel(c, reg).value)).value)
  {
  }

  /** The v7 options from the profile defaults, then the renames. */
  lemma V7OptionsUnfold(c: Conf)
    ensures V7Options(c) == Renames(c[RerankChunksMax := Int(30)][ExpandChunksRadius := Int(2)], V7Moves())
  {
    V7Defaults();
  }

  lemma V7Defaults()
    ensures DefaultConfig(RerankChunksMax) == Some(Int(30))
    ensures DefaultConfig(ExpandChunksRadius) == Some(Int(2))
  {
  }

  /** v7 succeeds when the provider has a rerank model and the old retrieval options exist. */
  lemma V7Succeeds(c: Conf, reg: Registry)
    requires AiProvider in c && c[AiProvider] in reg && AiModelRerank in reg[c[AiProvider]]
    requires QdrantScoreMin in c && QdrantChunksMax in c
    ensures V7(c, reg).Success?
  {
    V7Unfold(c, reg);
    var c1 := AddOption(c, AiModelRerank, AsDefault(RerankModel(c, reg).value)).value;
    V7OptionsUnfold(c1);
    V7RenamesSucceed(c1[RerankChunksMax := Int(30)][ExpandChunksRadius := Int(2)]);
  }

  /**
   * What holds of a version-1 file after the upgrade has reached version
   * `n`, when the registry has a rerank model: the options later steps
   * read are present, and the OCR setting moves from `ocr_mode_strict`
   * set to `false` (v2) to the `relaxed` strategy (v4) to `auto` (v6).
   */
  predicate V1Path(n: int, c: Conf)
  {
    (n <= 3 ==> HasV4Sources(c))
    && (n <= 6 ==> QdrantScoreMin in c && QdrantChunksMax in c)
    && (2 <= n <= 3 ==> OcrModeStrict in c && c[OcrModeStrict] == Str("false"))
    && (4 <= n ==> AiProvider in c && c[AiProvider] == Str("openai"))
    && (4 <= n <= 5 ==> OcrStrategy in c && c[OcrStrategy] == Str("relaxed"))
    && (6 <= n ==> OcrStrategy in c && c[OcrStrategy] == Str("auto"))
  }

  lemma V1After2(c: Conf)
    requires V1Path(1, c)
    ensures V1Path(2, SetVersion(c, 2)[OcrModeStrict := Str("false")])
  {
  }

  lemma V1Step2(c: Conf, reg: Registry)
    ensures Step(2, c, reg) == Success(SetVersion(c, 2)[OcrModeStrict := Str("false")])
  {
  }

  lemma V1After3(c: Conf)
    requires V1Path(2, c)
    ensures V1Path(3, SetVersion(c, 3)[McpServerPort := Int(8008)])
  {
  }

  lemma V1Step3(c: Conf, reg: Registry)
    ensures Step(3, c, reg) == Success(SetVersion(c, 3)[McpServerPort := Int(8008)])
  {
  }

  lemma V1At4(r: Conf)
    requires QdrantScoreMin in r && QdrantChunksMax in r
    requires AiProvider in r && r[AiProvider] == Str("openai")
    requires OcrStrategy in r && r[OcrStrategy] == OcrTranslation()[Str("false")]
    ensures V1Path(4, r)
  {
  }

  lemma RetrievalOptionsOutside4()
    ensures !Touches(4, QdrantScoreMin) && !Touches(4, QdrantChunksMax)
  {
  }

  lemma V1After4(c: Conf)
    requires V1Path(3, c)
    ensures V4(SetVersion(c, 4)).Success? && V1Path(4, V4(SetVersion(c, 4)).value)
  {
    var c0 := SetVersion(c, 4);
    V4Succeeds(c0);
    V4SetsProvider(c0);
    RetrievalOptionsOutside4();
    V4Keeps(c0, QdrantScoreMin);
    V4Keeps(c0, QdrantChunksMax);
    V1At4(V4(c0).value);
  }

  lemma V1Step4(c: Conf, reg: Registry)
    ensures Step(4, c, reg) == V4(SetVersion(c, 4))
  {
  }

  lemma V1After5(c: Conf)
    requires V1Path(4, c)
    ensures V1Path(5, SetVersion(c, 5)[AiServerUrl := Str("https://api.openai.com/v1")])
  {
  }

  lemma V1Step5(c: Conf, reg: Registry)
    requires AiProvider in c && c[AiProvider] == Str("openai")
    ensures Step(5, c, reg) == Success(SetVersion(c, 5)[AiServerUrl := Str("https://api.openai.com/v1")])
  {
  }

  lemma V1After6(c: Conf)
    requires V1Path(5, c)
    ensures V1Path(6, SetVersion(c, 6)[OcrAutoThreshold := Int(32)][OcrStrategy := Str("auto")])
  {
  }

  lemma V1Step6(c: Conf, reg: Registry)
    ensures Step(6, c, reg) == Success(SetVersion(c, 6)[OcrAutoThreshold := Int(32)][OcrStrategy := Str("auto")])
  {
  }

  lemma ProviderAndOcrOutside7()
    ensures !Touches(7, AiProvider) && !Touches(7, OcrStrategy)
  {
  }

  lemma V1At7(c: Conf, r: Conf)
    requires V1Path(6, c)
    requires Keeps(SetVersion(c, 7), r, AiProvider) && Keeps(SetVersion(c, 7), r, OcrStrategy)
    ensures V1Path(7, r)
  {
  }

  lemma V1After7(c: Conf, reg: Registry)
    requires V1Path(6, c) && HasRerankDefault(reg)
    ensures V7(SetVersion(c, 7), reg).Success? && V1Path(7, V7(SetVersion(c, 7), reg).value)
  {
    var c0 := SetVersion(c, 7);
    V7Succeeds(c0, reg);
    ProviderAndOcrOutside7();
    V7Keeps(c0, reg, AiProvider);
    V7Keeps(c0, reg, OcrStrategy);
    V1At7(c, V7(c0, reg).value);
  }

  lemma V1Step7(c: Conf, reg: Registry)
    ensures Step(7, c, reg) == V7(SetVersion(c, 7), reg)
  {
    StepOnIs(7, SetVersion(c, 7), reg);
  }

  /** The steps from v8 on only add options. */
  lemma LateStepSucceeds(n: int, c: Conf, reg: Registry)
    requires 8 <= n <= LatestVersion
    ensures Step(n, c, reg).Success?
  {
    if n == 11 {
      Step11Succeeds(c, reg);
    } else {
      SingleStepSucceeds(n, c, reg);
    }
  }

  lemma Step11Succeeds(c: Conf, reg: Registry)
    ensures Step(11, c, reg).Success?
  {
    V11Defaults();
    Step11Is(c, reg);
  }

  lemma Step11Is(c: Conf, reg: Registry)
    ensures Step(11, c, reg) == V11(SetVersion(c, 11))
  {
    StepOnIs(11, SetVersion(c, 11), reg);
  }

  /** Each step dispatches to its own work. */
  lemma StepOnIs(n: int, c: Conf, reg: Registry)
    ensures n == 7 ==> StepOn(n, c, reg) == V7(c, reg)
    ensures n == 11 ==> StepOn(n, c, reg) == V11(c)
  {
  }

  lemma SingleStepSucceeds(n: int, c: Conf, reg: Registry)
    requires 8 <= n <= LatestVersion && n != 11
    ensures Step(n, c, reg).Success?
  {
    assert DefaultConfig(SingleOption(n).0).Some?;
  }

  lemma LateStepsUntouched(n: int)
    requires 8 <= n
    ensures !Touches(n, AiProvider) && !Touches(n, OcrStrategy)
  {
  }

  lemma V1StepLate(n: int, c: Conf, reg: Registry)
    requires 8 <= n <= LatestVersion && V1Path(n - 1, c)
    ensures Step(n, c, reg).Success? && V1Path(n, Step(n, c, reg).value)
  {
    LateStepSucceeds(n, c, reg);
    LateStepsUntouched(n);
    StepKeeps(n, c, reg, AiProvider);
    StepKeeps(n, c, reg, OcrStrategy);
  }

  lemma V1Step(n: int, c: Conf, reg: Registry)
    requires 2 <= n <= LatestVersion && V1Path(n - 1, c) && HasRerankDefault(reg)
    ensures Step(n, c, reg).Success? && V1Path(n, Step(n, c, reg).value)
  {
    if n == 2 {
      V1Step2(c, reg);
      V1After2(c);
    } else if n == 3 {
      V1Step3(c, reg);
      V1After3(c);
    } else if n == 4 {
      V1Step4(c, reg);
      V1After4(c);
    } else if n == 5 {
      V1Step5(c, reg);
      V1After5(c);
    } else if n == 6 {
      V1Step6(c, reg);
      V1After6(c);
    } else if n == 7 {
      V1Step7(c, reg);
      V1After7(c, reg);
    } else {
      V1StepLate(n, c, reg);
    }
  }

  lemma {:induction false} V1Run(c: Conf, n: int, reg: Registry)
    requires 2 <= n <= LatestVersion + 1 && V1Path(n - 1, c) && HasRerankDefault(reg)
    ensures Run(c, n, LatestVersion, reg).Success?
    ensures V1Path(LatestVersion, Run(c, n, LatestVersion, reg).value)
    decreases LatestVersion - n
  {
    if n <= LatestVersion {
      V1Step(n, c, reg);
      V1Run(Step(n, c, reg).value, n + 1, reg);
    }
  }

  /**
   * With a registry that has a rerank model for OpenAI, a version-1 file
   * that carries the options the renames read upgrades to the latest
   * version, with OpenAI as provider and the `auto` OCR strategy.
   */
  lemma UpgradeFromV1(c: Conf, reg: Registry)
    requires StartVersion(c).Success? && StartVersion(c).value <= 1
    requires IsV1File(c)
    requires HasRerankDefault(reg)
    ensures Upgrade(c, reg).Success?
    ensures Upgrade(c, reg).value.1
    ensures AiProvider in Upgrade(c, reg).value.0 && Upgrade(c, reg).value.0[AiProvider] == Str("openai")
    ensures OcrStrategy in Upgrade(c, reg).value.0 && Upgrade(c, reg).value.0[OcrStrategy] == Str("auto")
  {
    V1Run(c, 2, reg);
  }

  /** Validation accepts every configuration. */
  function Validate(c: Conf): (r: bool)
    ensures r
  {
    true
  }
}
