/**
 Configs and system prompts together: runs of every write on either table, the foreign key
 between them, and loading a config with its current prompt
 (app/commands/load_model_config.py, app/commands/system_prompts/delete_system_prompt_command.py).
 */
module Gateway {
  import opened Wrappers
  import C = ModelConfigs
  import P = SystemPrompts

  datatype Db = Db(configs: C.Rows, tables: P.Tables)

  datatype Op =
    | CreateConfig(config: C.ConfigId, data: C.CreateData)
    | UpdateConfig(config: C.ConfigId, change: C.UpdateData)
    | SoftDelete(config: C.ConfigId)
    | Restore(config: C.ConfigId)
    | HardDelete(config: C.ConfigId, indexed: set<C.ConfigId>)
    | CreatePrompt(prompt: P.PromptId, version: P.VersionId, name: string, content: string, note: Option<string>)
    | UpdatePrompt(
        prompt: P.PromptId, version: P.VersionId, newName: Option<string>, newContent: Option<string>,
        note: Option<string>)
    | AddVersion(prompt: P.PromptId, version: P.VersionId, content: string, note: Option<string>)
    | DeletePrompt(prompt: P.PromptId)

  const EMPTY: Db := Db(map[], P.Tables(map[], []))

  /** The prompts some config row refers to, soft-deleted rows included. */
  function Referenced(configs: C.Rows): set<P.PromptId> {
    set c | c in configs && configs[c].systemPromptId.Some? :: configs[c].systemPromptId.value
  }

  function WithConfigs(db: Db, next: Result<C.Rows, C.ConfigError>): Db {
    if next.Success? then db.(configs := next.value) else db
  }

  function WithTables(db: Db, next: Result<P.Tables, P.PromptError>): Db {
    if next.Success? then db.(tables := next.value) else db
  }

  /** One committed transaction; a refused one leaves the database as it was. */
  function Apply(db: Db, op: Op): Db {
    var prompts := db.tables.prompts.Keys;
    match op
    case CreateConfig(id, data) => WithConfigs(db, C.CreateConfig(db.configs, prompts, id, data))
    case UpdateConfig(id, change) => WithConfigs(db, C.UpdateConfig(db.configs, prompts, id, change))
    case SoftDelete(id) => WithConfigs(db, C.SoftDelete(db.configs, id))
    case Restore(id) => WithConfigs(db, C.Restore(db.configs, id))
    case HardDelete(id, indexed) => WithConfigs(db, C.HardDelete(db.configs, id, indexed))
    case CreatePrompt(id, v, name, content, note) =>
      WithTables(db, P.CreatePrompt(db.tables, id, v, name, content, note))
    case UpdatePrompt(id, v, name, content, note) =>
      WithTables(db, P.UpdatePrompt(db.tables, id, v, name, content, note))
    case AddVersion(id, v, content, note) => WithTables(db, P.CreateVersion(db.tables, id, v, content, note))
    case DeletePrompt(id) => WithTables(db, P.DeletePrompt(db.tables, id, Referenced(db.configs)))
  }

  function Run(db: Db, ops: seq<Op>): Db
    decreases |ops|
  {
    if ops == [] then db else Run(Apply(db, ops[0]), ops[1..])
  }

  ghost predicate Good(db: Db) {
    C.Consistent(db.configs, db.tables.prompts.Keys) && P.Sound(db.tables)
  }

  // ---------------------------------------------------------------- every reachable state

  lemma CreateConfigConsistent(rows: C.Rows, prompts: set<P.PromptId>, id: C.ConfigId, data: C.CreateData)
    requires C.Consistent(rows, prompts) && C.CreateConfig(rows, prompts, id, data).Success?
    ensures C.Consistent(C.CreateConfig(rows, prompts, id, data).value, prompts)
  {
    var config := C.NewConfig(data);
    if config.isDefault {
      C.ClearedConsistent(rows, prompts, config.configType, None);
      C.ClearedSlugs(rows, config.configType, None, config.slug, id);
      C.ClearedDefaults(rows, config.configType, id, None);
      C.PutConsistent(C.Cleared(rows, config.configType, None), prompts, id, config);
    } else {
      C.PutConsistent(rows, prompts, id, config);
    }
  }

  lemma UpdateConfigConsistent(rows: C.Rows, prompts: set<P.PromptId>, id: C.ConfigId, change: C.UpdateData)
    requires C.Consistent(rows, prompts) && C.UpdateConfig(rows, prompts, id, change).Success?
    ensures C.Consistent(C.UpdateConfig(rows, prompts, id, change).value, prompts)
  {
    var config := C.Patched(rows[id], change).value;
    if change.isDefault == C.To(true) {
      C.ClearedConsistent(rows, prompts, config.configType, Some(id));
      C.ClearedSlugs(rows, config.configType, Some(id), config.slug, id);
      C.ClearedDefaults(rows, config.configType, id, Some(id));
      C.PutConsistent(C.Cleared(rows, config.configType, Some(id)), prompts, id, config);
    } else {
      C.PutConsistent(rows, prompts, id, config);
    }
  }

  lemma RestoreConsistent(rows: C.Rows, prompts: set<P.PromptId>, id: C.ConfigId)
    requires C.Consistent(rows, prompts) && C.Restore(rows, id).Success?
    ensures C.Consistent(C.Restore(rows, id).value, prompts)
  {
    C.PutConsistent(rows, prompts, id, rows[id].(deleted := false));
  }

  /** Taking rows out of the live set, or out of the table, breaks no constraint. */
  lemma RemoveConsistent(rows: C.Rows, prompts: set<P.PromptId>, id: C.ConfigId)
    requires C.Consistent(rows, prompts) && C.Live(rows, id)
    ensures C.Consistent(C.SoftDelete(rows, id).value, prompts)
    ensures C.Consistent(rows - {id}, prompts)
  {
    var gone := C.SoftDelete(rows, id).value;
    assert forall a :: C.Live(gone, a) ==> C.Live(rows, a) && gone[a] == rows[a];
    var less := rows - {id};
    assert forall a :: C.Live(less, a) ==> C.Live(rows, a) && less[a] == rows[a];
  }

  /**
   The command's reference check, which counts soft-deleted rows, is exactly the RESTRICT
   foreign key: the delete that passes it is never refused by the database, and no other is.
   */
  lemma ReferenceCheckIsForeignKey(configs: C.Rows, prompts: set<P.PromptId>, id: P.PromptId)
    requires C.PromptsExist(configs, prompts)
    ensures C.PromptsExist(configs, prompts - {id}) <==> id !in Referenced(configs)
  {
  }

  lemma ConfigOpGood(db: Db, op: Op)
    requires Good(db)
    requires op.CreateConfig? || op.UpdateConfig? || op.SoftDelete? || op.Restore? || op.HardDelete?
    ensures Good(Apply(db, op))
  {
    var prompts := db.tables.prompts.Keys;
    match op {
      case CreateConfig(id, data) =>
        if C.CreateConfig(db.configs, prompts, id, data).Success? {
          CreateConfigConsistent(db.configs, prompts, id, data);
        }
      case UpdateConfig(id, change) =>
        if C.UpdateConfig(db.configs, prompts, id, change).Success? {
          UpdateConfigConsistent(db.configs, prompts, id, change);
        }
      case Restore(id) =>
        if C.Restore(db.configs, id).Success? {
          RestoreConsistent(db.configs, prompts, id);
        }
      case SoftDelete(id) =>
        if C.Live(db.configs, id) {
          RemoveConsistent(db.configs, prompts, id);
        }
      case HardDelete(id, _) =>
        if C.Live(db.configs, id) {
          RemoveConsistent(db.configs, prompts, id);
        }
    }
  }

  /** A transaction that keeps the tables sound and removes no prompt keeps the database good. */
  lemma TablesGood(db: Db, next: Result<P.Tables, P.PromptError>)
    requires Good(db)
    requires next.Success? ==> P.Sound(next.value) && db.tables.prompts.Keys <= next.value.prompts.Keys
    ensures Good(WithTables(db, next))
  {
  }

  lemma PromptDeleteGood(db: Db, id: P.PromptId)
    requires Good(db)
    ensures Good(WithTables(db, P.DeletePrompt(db.tables, id, Referenced(db.configs))))
  {
    var next := P.DeletePrompt(db.tables, id, Referenced(db.configs));
    if next.Success? {
      P.DeletePromptSound(db.tables, id, Referenced(db.configs));
      ReferenceCheckIsForeignKey(db.configs, db.tables.prompts.Keys, id);
      assert next.value.prompts.Keys == db.tables.prompts.Keys - {id};
    }
  }

  lemma PromptCreateGood(
      db: Db, id: P.PromptId, version: P.VersionId, name: string, content: string, note: Option<string>)
    requires Good(db)
    ensures Good(WithTables(db, P.CreatePrompt(db.tables, id, version, name, content, note)))
  {
    P.CreateKeeps(db.tables, id, version, name, content, note);
    TablesGood(db, P.CreatePrompt(db.tables, id, version, name, content, note));
  }

  lemma PromptUpdateGood(
      db: Db, id: P.PromptId, version: P.VersionId, name: Option<string>, content: Option<string>, note: Option<string>)
    requires Good(db)
    ensures Good(WithTables(db, P.UpdatePrompt(db.tables, id, version, name, content, note)))
  {
    P.UpdateKeeps(db.tables, id, version, name, content, note);
    TablesGood(db, P.UpdatePrompt(db.tables, id, version, name, content, note));
  }

  lemma VersionAddGood(db: Db, id: P.PromptId, version: P.VersionId, content: string, note: Option<string>)
    requires Good(db)
    ensures Good(WithTables(db, P.CreateVersion(db.tables, id, version, content, note)))
  {
    P.AddKeeps(db.tables, id, version, content, note);
    TablesGood(db, P.CreateVersion(db.tables, id, version, content, note));
  }

  lemma PromptOpGood(db: Db, op: Op)
    requires Good(db)
    requires op.CreatePrompt? || op.UpdatePrompt? || op.AddVersion? || op.DeletePrompt?
    ensures Good(Apply(db, op))
  {
    match op {
      case CreatePrompt(id, v, name, content, note) => PromptCreateGood(db, id, v, name, content, note);
      case UpdatePrompt(id, v, name, content, note) => PromptUpdateGood(db, id, v, name, content, note);
      case AddVersion(id, v, content, note) => VersionAddGood(db, id, v, content, note);
      case DeletePrompt(id) => PromptDeleteGood(db, id);
    }
  }

  lemma OpGood(db: Db, op: Op)
    requires Good(db)
    ensures Good(Apply(db, op))
  {
    if op.CreatePrompt? || op.UpdatePrompt? || op.AddVersion? || op.DeletePrompt? {
      PromptOpGood(db, op);
    } else {
      ConfigOpGood(db, op);
    }
  }

  /**
   Over every run of writes on configs and prompts: at most one live default for each
   type, unique live slugs, no config (live or soft-deleted) referring to a missing prompt,
   and every prompt's versions numbered 1..n with the current pointer on version n.
   */
  lemma {:induction false} RunStaysGood(db: Db, ops: seq<Op>)
    requires Good(db)
    ensures Good(Run(db, ops))
    decreases |ops|
  {
    if ops != [] {
      OpGood(db, ops[0]);
      RunStaysGood(Apply(db, ops[0]), ops[1..]);
    }
  }

  /** A step leaves the old history of a prompt that survives it as a prefix of the new one. */
  lemma StepKeepsHistory(db: Db, op: Op, id: P.PromptId)
    requires id in db.tables.prompts && id in Apply(db, op).tables.prompts
    ensures P.VersionsOf(db.tables.versions, id) <= P.VersionsOf(Apply(db, op).tables.versions, id)
  {
    var before, after := db.tables.versions, Apply(db, op).tables.versions;
    if op.DeletePrompt? {
      if after != before {
        P.VersionsOfWithout(before, op.prompt, id);
      }
    } else {
      assert before <= after;
      P.VersionsOfConcat(before, after[|before|..], id);
      assert before + after[|before|..] == after;
    }
  }

  /** Histories are append-only for as long as the prompt exists. */
  lemma {:induction false} HistoryAppendOnly(db: Db, ops: seq<Op>, id: P.PromptId)
    requires forall k :: 0 <= k <= |ops| ==> id in Run(db, ops[..k]).tables.prompts
    ensures P.VersionsOf(db.tables.versions, id) <= P.VersionsOf(Run(db, ops).tables.versions, id)
    decreases |ops|
  {
    if ops != [] {
      var next := Apply(db, ops[0]);
      assert Run(db, ops[..0]) == db;
      forall k | 0 <= k <= |ops[1..]|
        ensures id in Run(next, ops[1..][..k]).tables.prompts
      {
        assert ops[..k + 1][1..] == ops[1..][..k] && ops[..k + 1][0] == ops[0];
        assert Run(db, ops[..k + 1]) == Run(next, ops[1..][..k]);
      }
      assert Run(next, ops[1..][..0]) == next;
      StepKeepsHistory(db, ops[0], id);
      HistoryAppendOnly(next, ops[1..], id);
    }
  }

  // ---------------------------------------------------------------- what a write leaves behind

  /** The step succeeds exactly when the transaction does, and then only its own table changes. */
  lemma StepIsTransaction(db: Db, op: Op)
    ensures op.SoftDelete? ==>
              Apply(db, op) == if C.Live(db.configs, op.config)
                               then db.(configs := db.configs[op.config := db.configs[op.config].(deleted := true)])
                               else db
    ensures op.HardDelete? ==>
              Apply(db, op) == if C.Live(db.configs, op.config) && op.config !in op.indexed
                               then db.(configs := db.configs - {op.config}) else db
    ensures op.DeletePrompt? ==>
              if op.prompt in db.tables.prompts && op.prompt !in Referenced(db.configs)
              then Apply(db, op).configs == db.configs
                   && Apply(db, op).tables.prompts == db.tables.prompts - {op.prompt}
              else Apply(db, op) == db
    ensures op.CreatePrompt? || op.UpdatePrompt? || op.AddVersion? ==> Apply(db, op).configs == db.configs
    ensures op.CreateConfig? || op.UpdateConfig? || op.Restore? ==> Apply(db, op).tables == db.tables
    ensures op.Restore? ==>
              Apply(db, op).configs
              == if && op.config in db.configs && C.SlugFree(db.configs, db.configs[op.config].slug, op.config)
                    && (db.configs[op.config].isDefault ==>
                          C.DefaultFree(db.configs, db.configs[op.config].configType, op.config))
                 then db.configs[op.config := db.configs[op.config].(deleted := false)] else db.configs
  {
    if op.Restore? && op.config in db.configs {
      C.FreeIff(db.configs, db.configs[op.config].slug, db.configs[op.config].configType, op.config);
    }
  }

  /** An update of a config does, field by field, what the repository promises. */
  lemma UpdateConfigStep(db: Db, id: C.ConfigId, change: C.UpdateData) returns (error: Option<C.ConfigError>)
    requires Good(db)
    ensures C.UpdateMeans(db.configs, db.tables.prompts.Keys, id, change, error,
                          Apply(db, UpdateConfig(id, change)).configs)
  {
    var next := C.UpdateConfig(db.configs, db.tables.prompts.Keys, id, change);
    error := if next.Success? then None else Some(next.error);
    C.UpdateMeaning(db.configs, db.tables.prompts.Keys, id, change);
  }

  lemma AddedIsLoaded(
      db: Db, id: C.ConfigId, prompt: P.PromptId, version: P.VersionId, content: string, note: Option<string>)
    requires id in db.configs && db.configs[id].systemPromptId == Some(prompt)
    requires prompt in db.tables.prompts && forall v :: v in db.tables.versions ==> v.id != version
    ensures var next := Apply(db, AddVersion(prompt, version, content, note));
            id in next.configs && next.configs == db.configs && LoadedPrompt(next, id) == Some(content)
  {
    P.FindVersionIff(db.tables.versions, version);
    var next := Apply(db, AddVersion(prompt, version, content, note));
    P.FindAppended(db.tables.versions, next.tables.versions[|db.tables.versions|]);
  }

  /** What an update of a prompt sends is what loading any config of that prompt gives. */
  lemma UpdateIsLoaded(
      db: Db, id: C.ConfigId, prompt: P.PromptId, version: P.VersionId, content: string, note: Option<string>)
    requires id in db.configs && db.configs[id].systemPromptId == Some(prompt)
    requires prompt in db.tables.prompts && forall v :: v in db.tables.versions ==> v.id != version
    ensures var next := Apply(db, UpdatePrompt(prompt, version, None, Some(content), note));
            && id in next.configs && next.configs == db.configs
            && (if LoadedPrompt(next, id).Some? then LoadedPrompt(next, id).value else "") == content
  {
    P.FindVersionIff(db.tables.versions, version);
    P.UpdateReadsBack(db.tables, prompt, version, None, content, note);
  }

  /** A prompt and a config of it, both made under free names, are loaded with the prompt's first content. */
  lemma CreatedIsLoaded(
      db: Db, prompt: P.PromptId, version: P.VersionId, name: string, content: string, note: Option<string>,
      id: C.ConfigId, data: C.CreateData)
    requires prompt !in db.tables.prompts && !P.NameUsed(db.tables, name)
    requires forall v :: v in db.tables.versions ==> v.id != version
    requires id !in db.configs && !C.SlugTaken(db.configs, data.slug, id) && data.systemPromptId == Some(prompt)
    ensures var next := Apply(Apply(db, CreatePrompt(prompt, version, name, content, note)), CreateConfig(id, data));
            && id in next.configs && next.configs[id].systemPromptId == Some(prompt)
            && LoadedPrompt(next, id) == Some(content)
  {
    P.FindVersionIff(db.tables.versions, version);
    var created := Apply(db, CreatePrompt(prompt, version, name, content, note));
    P.FindAppended(db.tables.versions, created.tables.versions[|db.tables.versions|]);
  }

  /** The prompt of a config cannot be deleted, whatever else is done, until the config lets go of it. */
  lemma ReferencedStays(db: Db, id: C.ConfigId, prompt: P.PromptId)
    requires id in db.configs && db.configs[id].systemPromptId == Some(prompt)
    ensures Apply(db, DeletePrompt(prompt)) == db
  {
    assert prompt in Referenced(db.configs);
  }

  // ---------------------------------------------------------------- loading

  /** load_model_config for the live config that resolve picked. */
  function LoadedPrompt(db: Db, id: C.ConfigId): Option<string>
    requires id in db.configs
  {
    var prompt := db.configs[id].systemPromptId;
    if prompt.None? then None else P.CurrentContent(db.tables, prompt.value)
  }

  /**
   In every reachable state, loading a config that names a prompt returns the content of
   the prompt's highest-numbered version.
   */
  lemma LoadReturnsHighest(ops: seq<Op>, id: C.ConfigId)
    requires id in Run(EMPTY, ops).configs && Run(EMPTY, ops).configs[id].systemPromptId.Some?
    ensures var db := Run(EMPTY, ops);
            var prompt := db.configs[id].systemPromptId.value;
            && prompt in db.tables.prompts
            && exists v :: && v in db.tables.versions && v.promptId == prompt
                           && LoadedPrompt(db, id) == Some(v.content)
                           && forall w :: w in db.tables.versions && w.promptId == prompt ==> w.number <= v.number
  {
    RunStaysGood(EMPTY, ops);
    var db := Run(EMPTY, ops);
    var prompt := db.configs[id].systemPromptId.value;
    P.CurrentIsHighest(db.tables, prompt);
    var history := P.VersionsOf(db.tables.versions, prompt);
    P.VersionsOfMembers(db.tables.versions, prompt);
    var v := history[|history| - 1];
    assert v in db.tables.versions && v.promptId == prompt;
  }

  method LoadModelConfig(configs: C.ModelConfigRepository, prompts: P.SystemPromptRepository, id: C.ConfigId)
    returns (config: C.Config, systemPrompt: Option<string>)
    requires C.Live(configs.rows, id)
    ensures config == configs.rows[id]
    ensures systemPrompt == LoadedPrompt(Db(configs.rows, prompts.View()), id)
    ensures systemPrompt.Some? ==>
              && config.systemPromptId.Some? && config.systemPromptId.value in prompts.prompts
              && exists v :: && v in prompts.versions && v.content == systemPrompt.value
                             && prompts.prompts[config.systemPromptId.value].currentVersionId == Some(v.id)
  {
    config := configs.rows[id];
    systemPrompt := None;
    if config.systemPromptId.Some? {
      systemPrompt := P.CurrentContent(prompts.View(), config.systemPromptId.value);
      if systemPrompt.Some? {
        P.FindVersionIff(prompts.versions, prompts.prompts[config.systemPromptId.value].currentVersionId.value);
      }
    }
  }
}
