/** The launcher's model list, and what a sync with the platform's official models makes of it. */
module OfficialModels {
  import opened Basics
  import opened Text
  import opened Aliases

  /** A ModelConfig; rest stands for the fields that the sync never looks at. */
  datatype Entry = Entry(alias: string, model: string, apiBase: string, apiKey: string, proxy: string,
                         auth: string, fallbacks: Option<seq<string>>, rest: string)

  /** An official model as the platform announces it. */
  datatype Announced = Announced(id: string, enabled: bool)

  /** The configuration: model list, agents.defaults.model_name, the older .model field, platform URL. */
  datatype Config = Config(models: seq<Entry>, name: string, legacy: string, base: string)

  datatype Warning = NoWarning | KeptLocal | NothingOffered

  datatype Report = Report(added: nat, updated: nat, removed: nat, total: nat, changed: bool,
                           default: string, warning: Warning)

  const CANONICAL: string := "official"
  const CANONICAL_REF: string := "official/default"
  const CUSTOM_STEM: string := "official-custom"
  const PLATFORM_BASE: string := "http://142.91.105.49:18793"

  // ----- kinds of entry -----

  /** officialModelID finds an ID: the part before the first slash is "official", the rest not blank. */
  predicate IsOfficialRef(model: string) {
    var m := TrimSpace(model);
    |m| > 9 && m[..9] == "official/" && TrimSpace(m[9..]) != ""
  }

  predicate Contains(s: string, part: string) {
    exists i {:trigger s[i..]} :: 0 <= i <= |s| - |part| && part <= s[i..]
  }

  predicate IsPlaceholder(secret: string) {
    var v := Normal(secret);
    || v == ""
    || v in {"sk-your-openai-key", "sk-ant-your-key", "your_dashscope_key", "your-dashscope-key",
             "replace-with-your-upstream-api-key", "your_api_key", "your-api-key", "gsk_xxx", "sk-xxx"}
    || Contains(v, "your-key") || Contains(v, "your_api_key")
  }

  /** isBootstrapSampleModel: an entry of the shipped sample configuration that nobody filled in. */
  predicate IsSample(model: string, apiBase: string, apiKey: string, auth: string) {
    var key, base := TrimSpace(apiKey), Normal(apiBase);
    && TrimSpace(auth) == ""
    && (|| (key != "" && IsPlaceholder(key))
        || (key == "" && match Normal(model) {
              case "openai/gpt-5.2" => base == "" || base == "https://api.openai.com/v1"
              case "anthropic/claude-sonnet-4.6" => base == "" || base == "https://api.anthropic.com/v1"
              case "deepseek/deepseek-chat" => base == "" || base == "https://api.deepseek.com/v1"
              case "qwen/qwen-plus" => base == "" || base == "https://dashscope.aliyuncs.com/compatible-mode/v1"
              case _ => false
            }))
  }

  /** Custom entries are the user's own: what the sync must keep. */
  datatype Kind = Official | Sample | Custom

  function KindOf(e: Entry): Kind {
    if IsOfficialRef(e.model) then Official else if IsSample(e.model, e.apiBase, e.apiKey, e.auth) then Sample else Custom
  }

  predicate Clashes(e: Entry) { Normal(e.alias) == CANONICAL }

  function Customs(kind: Entry -> Kind, models: seq<Entry>): seq<Entry> {
    if models == [] then [] else
    var e := models[|models| - 1];
    Customs(kind, models[..|models| - 1]) + if kind(e) == Custom then [e] else []
  }

  function Officials(kind: Entry -> Kind, models: seq<Entry>): seq<Entry> {
    if models == [] then [] else
    var e := models[|models| - 1];
    Officials(kind, models[..|models| - 1]) + if kind(e) == Official then [e] else []
  }

  /** How many of the user's own entries have to give up the alias "official". */
  function ClashCount(kind: Entry -> Kind, models: seq<Entry>): nat {
    if models == [] then 0 else
    var e := models[|models| - 1];
    ClashCount(kind, models[..|models| - 1]) + if kind(e) == Custom && Clashes(e) then 1 else 0
  }

  // ----- the two passes -----

  /** rememberModelAlias */
  function Remembered(used: set<string>, alias: string): set<string> {
    if Normal(alias) == "" then used else used + {Normal(alias)}
  }

  /** The aliases that are taken before any entry is renamed. */
  function Reserved(kind: Entry -> Kind, models: seq<Entry>, needed: bool): set<string> {
    if models == [] then (if needed then Remembered({}, CANONICAL) else {}) else
    var e := models[|models| - 1];
    var used := Reserved(kind, models[..|models| - 1], needed);
    if kind(e) == Custom then Remembered(used, e.alias) else used
  }

  /** The state of the loop over the list; lost says that the default's entry was taken out. */
  datatype Scan = Scan(out: seq<Entry>, officials: seq<Entry>, used: set<string>,
                       name: string, lost: bool, removed: nat, updated: nat)

  function Took(kind: Entry -> Kind, s: Scan, e: Entry, needed: bool): Scan {
    if kind(e) == Official then
      s.(officials := s.officials + [e], lost := s.lost || e.alias == s.name)
    else if kind(e) == Sample then
      s.(removed := s.removed + 1, lost := s.lost || e.alias == s.name)
    else if needed && Clashes(e) then
      var alias := FirstFree(CUSTOM_STEM, s.used, 0);
      s.(out := s.out + [e.(alias := alias)], used := s.used + {alias}, updated := s.updated + 1,
         name := if !s.lost && Normal(s.name) == Normal(e.alias) then alias else s.name)
    else
      s.(out := s.out + [e])
  }

  function Scanned(kind: Entry -> Kind, s: Scan, models: seq<Entry>, needed: bool): Scan {
    if models == [] then s else
    Took(kind, Scanned(kind, s, models[..|models| - 1], needed), models[|models| - 1], needed)
  }

  // ----- the sync -----

  /** AgentDefaults.GetModelName */
  function Default(c: Config): string { if c.name != "" then c.name else c.legacy }

  function BaseOf(c: Config): string {
    if TrimSpace(c.base) == "" then PLATFORM_BASE else TrimSpace(c.base)
  }

  /** Does collectEnabledOfficialModelIDs return anything? */
  predicate Offers(announced: seq<Announced>) {
    exists a | a in announced :: a.enabled && TrimSpace(a.id) != ""
  }

  predicate Needed(kind: Entry -> Kind, c: Config, offers: bool) {
    offers || Officials(kind, c.models) != []
  }

  function Start(kind: Entry -> Kind, c: Config, needed: bool): Scan {
    Scan([], [], Reserved(kind, c.models, needed), Default(c), false, 0, 0)
  }

  function ScanOf(kind: Entry -> Kind, c: Config, offers: bool): Scan {
    var needed := Needed(kind, c, offers);
    Scanned(kind, Start(kind, c, needed), c.models, needed)
  }

  /** The entry with the fields that the sync owns set to what it wants. */
  function Rewritten(e: Entry, base: string): Entry {
    e.(alias := CANONICAL, apiBase := base, apiKey := "", proxy := "", fallbacks := None)
  }

  const BLANK_ENTRY: Entry := Entry("", "", "", "", "", "", None, "")

  /** buildUnifiedOfficialModel */
  function Unified(officials: seq<Entry>, base: string): Entry {
    Rewritten(if officials == [] then BLANK_ENTRY else officials[0], TrimSpace(base)).(model := CANONICAL_REF)
  }

  /** The official entry that ends the new list, if there is to be one. */
  function Imported(officials: seq<Entry>, base: string, offers: bool): seq<Entry> {
    if offers then [Unified(officials, base)]
    else if officials != [] then [Rewritten(officials[0], base)]
    else []
  }

  function Named(models: seq<Entry>, name: string): seq<Entry> {
    if models == [] then [] else
    var e := models[|models| - 1];
    Named(models[..|models| - 1], name) + if e.alias == name then [e] else []
  }

  /** shouldPromoteOfficialDefault; turn is the round-robin counter of GetModelConfig. */
  predicate Promotes(kind: Entry -> Kind, models: seq<Entry>, name: string, lost: bool, imported: bool, turn: nat) {
    var found := Named(models, name);
    || lost || TrimSpace(name) == ""
    || (imported && (|| found == []
                     || kind(found[turn % |found|]) == Sample))
  }

  function Promoted(models: seq<Entry>, imported: bool): string {
    if imported then CANONICAL else if models != [] then models[0].alias else ""
  }

  /** The configuration that syncOfficialModelsIntoConfig saves. */
  function Synced(kind: Entry -> Kind, c: Config, offers: bool, turn: nat): Config {
    var s := ScanOf(kind, c, offers);
    var imported := Imported(s.officials, BaseOf(c), offers);
    var models := s.out + imported;
    c.(models := models,
       name := if Promotes(kind, models, s.name, s.lost, imported != [], turn) then Promoted(models, imported != []) else s.name)
  }
}
