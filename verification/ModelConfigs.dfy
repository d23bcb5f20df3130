/**
 The model_configs table (app/repositories/model_config_repository.py and
 soft_delete_repository.py) under its constraints: unique slugs and one default per type
 among the live rows, and a foreign key to system prompts.

 The methods of ModelConfigRepository write rows step by step and meet the constraints
 only at a flush, which rolls the transaction back when one fails.  Each is proved equal
 to a closed form in which the refusal is a guard on the state before the call.
 */
module ModelConfigs {
  import opened Wrappers

  type ConfigId = nat
  type PromptId = nat

  const DEFAULT_TYPE: string := "chat"

  /** The columns no constraint mentions. */
  datatype Settings = Settings(name: string, provider: string, model: string)

  datatype Config = Config(
    slug: string,
    configType: string,
    isDefault: bool,
    systemPromptId: Option<PromptId>,
    settings: Settings,
    deleted: bool)

  type Rows = map<ConfigId, Config>

  datatype CreateData = CreateData(
    slug: string,
    configType: Option<string>,
    isDefault: bool,
    systemPromptId: Option<PromptId>,
    settings: Settings)

  /** One key of an update: absent, present with null, or present with a value. */
  datatype Patch<T> = Keep | SetNull | To(value: T)

  datatype UpdateData = UpdateData(
    slug: Patch<string>,
    configType: Patch<string>,
    isDefault: Patch<bool>,
    systemPromptId: Patch<PromptId>,
    settings: Patch<Settings>)

  datatype ConfigError = NotFound | IntegrityError

  // ---------------------------------------------------------------- constraints

  predicate Live(rows: Rows, id: ConfigId) {
    id in rows && !rows[id].deleted
  }

  /** What get_default_for_type looks for. */
  predicate IsDefaultFor(rows: Rows, configType: string, id: ConfigId) {
    Live(rows, id) && rows[id].isDefault && rows[id].configType == configType
  }

  predicate SlugsUnique(rows: Rows) {
    forall a, b | a in rows && b in rows && Live(rows, a) && Live(rows, b) && rows[a].slug == rows[b].slug :: a == b
  }

  predicate DefaultsUnique(rows: Rows) {
    forall a, b | a in rows && b in rows && IsDefaultFor(rows, rows[a].configType, a)
                  && IsDefaultFor(rows, rows[a].configType, b) :: a == b
  }

  predicate PromptsExist(rows: Rows, prompts: set<PromptId>) {
    forall a :: a in rows && rows[a].systemPromptId.Some? ==> rows[a].systemPromptId.value in prompts
  }

  /** What the database checks at a flush. */
  predicate Consistent(rows: Rows, prompts: set<PromptId>) {
    SlugsUnique(rows) && DefaultsUnique(rows) && PromptsExist(rows, prompts)
  }

  // ---------------------------------------------------------------- closed forms

  /** Another live row than id has the slug. */
  predicate SlugTaken(rows: Rows, slug: string, id: ConfigId) {
    exists a :: a in rows && a != id && Live(rows, a) && rows[a].slug == slug
  }

  /** Another live row than id is the default of the type. */
  predicate DefaultTaken(rows: Rows, configType: string, id: ConfigId) {
    exists a :: a in rows && a != id && IsDefaultFor(rows, configType, a)
  }

  predicate PromptMissing(prompt: Option<PromptId>, prompts: set<PromptId>) {
    prompt.Some? && prompt.value !in prompts
  }

  /** The rows after _clear_default. */
  function Cleared(rows: Rows, configType: string, exclude: Option<ConfigId>): Rows {
    map id | id in rows ::
      if IsDefaultFor(rows, configType, id) && exclude != Some(id) then rows[id].(isDefault := false) else rows[id]
  }

  function NewConfig(data: CreateData): Config {
    Config(data.slug, if data.configType.Some? then data.configType.value else DEFAULT_TYPE,
           data.isDefault, data.systemPromptId, data.settings, false)
  }

  /** Refused for a used key, a taken slug or a missing prompt, and for nothing else. */
  function CreateConfig(rows: Rows, prompts: set<PromptId>, id: ConfigId, data: CreateData): Result<Rows, ConfigError> {
    var config := NewConfig(data);
    if id in rows || SlugTaken(rows, config.slug, id) || PromptMissing(config.systemPromptId, prompts) then
      Failure(IntegrityError)
    else
      Success((if config.isDefault then Cleared(rows, config.configType, None) else rows)[id := config])
  }

  /** The record after the loop of setattr, or None when a column that cannot be null was set to null. */
  function Patched(config: Config, data: UpdateData): Option<Config> {
    if data.slug.SetNull? || data.configType.SetNull? || data.isDefault.SetNull? || data.settings.SetNull? then None
    else Some(Config(
      if data.slug.To? then data.slug.value else config.slug,
      if data.configType.To? then data.configType.value else config.configType,
      if data.isDefault.To? then data.isDefault.value else config.isDefault,
      match data.systemPromptId case Keep => config.systemPromptId case SetNull => None case To(p) => Some(p),
      if data.settings.To? then data.settings.value else config.settings,
      config.deleted))
  }

  /**
   Refused for a null, a taken slug, a missing prompt, or when a record that stays default
   without being set so moves to a type that has another default.
   */
  predicate UpdateRefused(rows: Rows, prompts: set<PromptId>, id: ConfigId, data: UpdateData)
    requires id in rows
  {
    var patched := Patched(rows[id], data);
    || patched.None?
    || SlugTaken(rows, patched.value.slug, id)
    || PromptMissing(patched.value.systemPromptId, prompts)
    || (data.isDefault.Keep? && patched.value.isDefault && DefaultTaken(rows, patched.value.configType, id))
  }

  function UpdateConfig(rows: Rows, prompts: set<PromptId>, id: ConfigId, data: UpdateData): Result<Rows, ConfigError> {
    if !Live(rows, id) then Failure(NotFound)
    else if UpdateRefused(rows, prompts, id, data) then Failure(IntegrityError)
    else
      var config := Patched(rows[id], data).value;
      Success((if data.isDefault == To(true) then Cleared(rows, config.configType, Some(id)) else rows)[id := config])
  }

  /** Only live rows are found. */
  function SoftDelete(rows: Rows, id: ConfigId): Result<Rows, ConfigError> {
    if !Live(rows, id) then Failure(NotFound) else Success(rows[id := rows[id].(deleted := true)])
  }

  /** Deleted rows are found too; refused when a live row took the slug or the default meanwhile. */
  function Restore(rows: Rows, id: ConfigId): Result<Rows, ConfigError> {
    if id !in rows then Failure(NotFound)
    else if SlugTaken(rows, rows[id].slug, id)
            || (rows[id].isDefault && DefaultTaken(rows, rows[id].configType, id)) then Failure(IntegrityError)
    else Success(rows[id := rows[id].(deleted := false)])
  }

  /** Refused by the foreign key (RESTRICT) of the chunk rows, given the configs they refer to. */
  function HardDelete(rows: Rows, id: ConfigId, indexed: set<ConfigId>): Result<Rows, ConfigError> {
    if !Live(rows, id) then Failure(NotFound)
    else if id in indexed then Failure(IntegrityError)
    else Success(rows - {id})
  }

  // ---------------------------------------------------------------- writing one row under the constraints

  /** Putting one live row keeps the constraints exactly when nothing else holds its slug or its default. */
  lemma PutConsistent(rows: Rows, prompts: set<PromptId>, id: ConfigId, config: Config)
    requires Consistent(rows, prompts) && !config.deleted
    ensures Consistent(rows[id := config], prompts)
            <==> && !SlugTaken(rows, config.slug, id)
                 && !(config.isDefault && DefaultTaken(rows, config.configType, id))
                 && !PromptMissing(config.systemPromptId, prompts)
  {
    var next := rows[id := config];
    assert forall a :: a in rows && a != id ==> next[a] == rows[a] && (Live(next, a) <==> Live(rows, a));
    assert Live(next, id) && next[id] == config;
    if SlugTaken(rows, config.slug, id) {
      var a :| a in rows && a != id && Live(rows, a) && rows[a].slug == config.slug;
      assert Live(next, a);
    }
    if config.isDefault && DefaultTaken(rows, config.configType, id) {
      var a :| a in rows && a != id && IsDefaultFor(rows, config.configType, a);
      assert Live(next, a);
    }
  }

  lemma ClearedConsistent(rows: Rows, prompts: set<PromptId>, configType: string, exclude: Option<ConfigId>)
    requires Consistent(rows, prompts)
    ensures Consistent(Cleared(rows, configType, exclude), prompts)
  {
    var next := Cleared(rows, configType, exclude);
    assert forall a :: a in rows ==> (Live(next, a) <==> Live(rows, a)) && next[a].slug == rows[a].slug;
  }

  lemma ClearedSlugs(rows: Rows, configType: string, exclude: Option<ConfigId>, slug: string, id: ConfigId)
    ensures SlugTaken(Cleared(rows, configType, exclude), slug, id) <==> SlugTaken(rows, slug, id)
  {
    var next := Cleared(rows, configType, exclude);
    assert forall a :: a in rows ==> (Live(next, a) <==> Live(rows, a)) && next[a].slug == rows[a].slug;
    if SlugTaken(rows, slug, id) {
      var a :| a in rows && a != id && Live(rows, a) && rows[a].slug == slug;
      assert a in next && Live(next, a);
    }
  }

  lemma ClearedDefaults(rows: Rows, configType: string, id: ConfigId, exclude: Option<ConfigId>)
    requires exclude.Some? ==> exclude.value == id
    ensures !DefaultTaken(Cleared(rows, configType, exclude), configType, id)
  {
  }

  // ---------------------------------------------------------------- what setting the default does

  /** After creating a default, it is the default of its type and every other type's default is as before. */
  lemma CreateDefaultWins(
      rows: Rows, prompts: set<PromptId>, id: ConfigId, data: CreateData, configType: string, a: ConfigId)
    requires data.isDefault && CreateConfig(rows, prompts, id, data).Success?
    ensures IsDefaultFor(CreateConfig(rows, prompts, id, data).value, configType, a)
            <==> if configType == (if data.configType.Some? then data.configType.value else "chat") then a == id
                 else IsDefaultFor(rows, configType, a)
  {
  }

  /**
   After an update that sets is_default, the record is the default of its type; no other
   type's default changes, except that the record stops being the default of its old type.
   */
  lemma UpdateDefaultWins(
      rows: Rows, prompts: set<PromptId>, id: ConfigId, data: UpdateData, configType: string, a: ConfigId)
    requires data.isDefault == To(true) && UpdateConfig(rows, prompts, id, data).Success?
    ensures IsDefaultFor(UpdateConfig(rows, prompts, id, data).value, configType, a)
            <==> if configType == Patched(rows[id], data).value.configType then a == id
                 else IsDefaultFor(rows, configType, a) && a != id
  {
  }

  /** Asking for the default never adds a refusal: the same call without it is refused just as well. */
  lemma DefaultNeverRefused(rows: Rows, prompts: set<PromptId>, id: ConfigId, data: CreateData, change: UpdateData)
    ensures CreateConfig(rows, prompts, id, data.(isDefault := true)).Failure?
            <==> CreateConfig(rows, prompts, id, data.(isDefault := false)).Failure?
    ensures UpdateConfig(rows, prompts, id, change.(isDefault := To(true))).Failure?
            <==> UpdateConfig(rows, prompts, id, change.(isDefault := To(false))).Failure?
  {
  }

  /**
   A type change that does not mention is_default is refused, for all other reasons being
   absent, exactly when the record is a default and its new type has one already.
   */
  lemma TypeMoveRefusedIff(rows: Rows, prompts: set<PromptId>, id: ConfigId, configType: string)
    requires Consistent(rows, prompts) && Live(rows, id)
    ensures var data := UpdateData(Keep, To(configType), Keep, Keep, Keep);
            UpdateConfig(rows, prompts, id, data).Failure?
            <==> && rows[id].isDefault && configType != rows[id].configType
                 && exists a :: a in rows && IsDefaultFor(rows, configType, a)
  {
    assert !SlugTaken(rows, rows[id].slug, id);
    if rows[id].isDefault && configType != rows[id].configType
       && exists a :: a in rows && IsDefaultFor(rows, configType, a) {
      var a :| a in rows && IsDefaultFor(rows, configType, a);
      assert a != id;
    }
    if rows[id].isDefault && configType == rows[id].configType {
      assert IsDefaultFor(rows, configType, id);
      assert !DefaultTaken(rows, configType, id);
    }
  }

  /** Deleting and restoring gives the row back, unless its slug or its default was taken in between. */
  lemma DeleteRestore(rows: Rows, prompts: set<PromptId>, id: ConfigId)
    requires Consistent(rows, prompts) && Live(rows, id)
    ensures SoftDelete(rows, id).Success?
    ensures Restore(SoftDelete(rows, id).value, id) == Success(rows)
  {
    var gone := SoftDelete(rows, id).value;
    assert forall a :: a in rows && a != id ==> gone[a] == rows[a] && (Live(gone, a) <==> Live(rows, a));
    assert IsDefaultFor(rows, rows[id].configType, id) || !rows[id].isDefault;
    assert rows[id].(deleted := true).(deleted := false) == rows[id];
    assert gone[id := rows[id]] == rows;
  }

  // ---------------------------------------------------------------- the repository

  /** No other row that is not deleted has the slug. */
  ghost predicate SlugFree(rows: Rows, slug: string, id: ConfigId) {
    forall a :: a in rows && a != id && !rows[a].deleted ==> rows[a].slug != slug
  }

  /** No other row that is not deleted is a default of the type. */
  ghost predicate DefaultFree(rows: Rows, configType: string, id: ConfigId) {
    forall a :: a in rows && a != id && !rows[a].deleted && rows[a].isDefault ==> rows[a].configType != configType
  }

  /** What an update answers and leaves behind, field by field. */
  ghost predicate UpdateMeans(
      before: Rows, prompts: set<PromptId>, id: ConfigId, data: UpdateData, error: Option<ConfigError>, after: Rows)
  {
    if !(id in before && !before[id].deleted) then error == Some(NotFound) && after == before
    else if UpdateClashes(before, prompts, id, data) then error == Some(IntegrityError) && after == before
    else
      && error == None && after.Keys == before.Keys
      && after[id].slug == (if data.slug.To? then data.slug.value else before[id].slug)
      && after[id].configType == (if data.configType.To? then data.configType.value else before[id].configType)
      && after[id].isDefault == (if data.isDefault.To? then data.isDefault.value else before[id].isDefault)
      && after[id].settings == (if data.settings.To? then data.settings.value else before[id].settings)
      && (data.systemPromptId.Keep? ==> after[id].systemPromptId == before[id].systemPromptId)
      && (data.systemPromptId.SetNull? ==> after[id].systemPromptId == None)
      && (data.systemPromptId.To? ==> after[id].systemPromptId == Some(data.systemPromptId.value))
      && !after[id].deleted
      && OthersCleared(before, after, id, data.isDefault == To(true), after[id].configType)
  }

  /** A null for a mandatory column, a taken slug, a missing prompt, or a default that moves onto another. */
  ghost predicate UpdateClashes(before: Rows, prompts: set<PromptId>, id: ConfigId, data: UpdateData)
    requires id in before
  {
    || data.slug.SetNull? || data.configType.SetNull? || data.isDefault.SetNull? || data.settings.SetNull?
    || (data.slug.To? && !SlugFree(before, data.slug.value, id))
    || (data.systemPromptId.To? && data.systemPromptId.value !in prompts)
    || (data.isDefault.Keep? && before[id].isDefault
        && data.configType.To? && !DefaultFree(before, data.configType.value, id))
  }

  lemma UpdateClashesIff(rows: Rows, prompts: set<PromptId>, id: ConfigId, data: UpdateData)
    requires Consistent(rows, prompts) && Live(rows, id)
    ensures UpdateClashes(rows, prompts, id, data) <==> UpdateRefused(rows, prompts, id, data)
  {
    assert SlugFree(rows, rows[id].slug, id);
    assert rows[id].isDefault ==> DefaultFree(rows, rows[id].configType, id);
    assert rows[id].systemPromptId.Some? ==> rows[id].systemPromptId.value in prompts;
    var patched := Patched(rows[id], data);
    if patched.Some? {
      FreeIff(rows, patched.value.slug, patched.value.configType, id);
    }
  }

  lemma FreeIff(rows: Rows, slug: string, configType: string, id: ConfigId)
    ensures SlugFree(rows, slug, id) <==> !SlugTaken(rows, slug, id)
    ensures DefaultFree(rows, configType, id) <==> !DefaultTaken(rows, configType, id)
  {
  }

  lemma UpdateMeaning(rows: Rows, prompts: set<PromptId>, id: ConfigId, data: UpdateData)
    requires Consistent(rows, prompts)
    ensures var next := UpdateConfig(rows, prompts, id, data);
            UpdateMeans(rows, prompts, id, data,
                        if next.Success? then None else Some(next.error), if next.Success? then next.value else rows)
  {
    if Live(rows, id) {
      UpdateClashesIff(rows, prompts, id, data);
    }
  }

  /** All rows but id are as before, save that live defaults of the type are none when clearing. */
  ghost predicate OthersCleared(before: Rows, after: Rows, id: ConfigId, clearing: bool, configType: string) {
    forall a :: a in before && a != id ==>
                  && a in after
                  && after[a] == if clearing && !before[a].deleted && before[a].configType == configType
                                 then before[a].(isDefault := false) else before[a]
  }

  class ModelConfigRepository {
    var rows: Rows

    constructor ()
      ensures rows == map[]
    {
      rows := map[];
    }

    /** UPDATE ... SET is_default = false on the live defaults of the type; always passes its flush. */
    method ClearDefault(configType: string, exclude: Option<ConfigId>)
      modifies this
      ensures rows == Cleared(old(rows), configType, exclude)
      ensures forall id :: id in rows && IsDefaultFor(rows, configType, id) ==> exclude == Some(id)
      ensures rows.Keys == old(rows).Keys
      ensures forall id :: id in rows ==> rows[id].(isDefault := old(rows)[id].isDefault) == old(rows)[id]
      ensures forall id :: id in rows && (exclude == Some(id) || !IsDefaultFor(old(rows), configType, id)) ==>
                             rows[id] == old(rows)[id]
    {
      rows := map id | id in rows ::
        if IsDefaultFor(rows, configType, id) && exclude != Some(id) then rows[id].(isDefault := false) else rows[id];
    }

    method Create(id: ConfigId, data: CreateData, prompts: set<PromptId>) returns (error: Option<ConfigError>)
      requires Consistent(rows, prompts)
      modifies this
      ensures Consistent(rows, prompts)
      ensures error == None <==>
                && id !in old(rows) && SlugFree(old(rows), data.slug, id)
                && (data.systemPromptId.Some? ==> data.systemPromptId.value in prompts)
      ensures error.Some? ==> error == Some(IntegrityError) && rows == old(rows)
      ensures error == None ==>
                var configType := if data.configType.Some? then data.configType.value else "chat";
                && rows.Keys == old(rows).Keys + {id}
                && rows[id] == Config(data.slug, configType, data.isDefault, data.systemPromptId, data.settings, false)
                && OthersCleared(old(rows), rows, id, data.isDefault, configType)
      ensures match CreateConfig(old(rows), prompts, id, data)
              case Success(next) => error == None && rows == next
              case Failure(e) => error == Some(e) && rows == old(rows)
    {
      var saved := rows;
      var config := NewConfig(data);
      if data.isDefault {
        ClearedConsistent(rows, prompts, config.configType, None);
        ClearedSlugs(rows, config.configType, None, config.slug, id);
        ClearedDefaults(rows, config.configType, id, None);
        ClearDefault(config.configType, None);
      }
      PutConsistent(rows, prompts, id, config);
      if id in rows || !Consistent(rows[id := config], prompts) {
        rows := saved;
        return Some(IntegrityError);
      }
      rows := rows[id := config];
      return None;
    }

    method Update(id: ConfigId, data: UpdateData, prompts: set<PromptId>) returns (error: Option<ConfigError>)
      requires Consistent(rows, prompts)
      modifies this
      ensures Consistent(rows, prompts)
      ensures UpdateMeans(old(rows), prompts, id, data, error, rows)
      ensures match UpdateConfig(old(rows), prompts, id, data)
              case Success(next) => error == None && rows == next
              case Failure(e) => error == Some(e) && rows == old(rows)
    {
      UpdateMeaning(rows, prompts, id, data);
      if !Live(rows, id) {
        return Some(NotFound);
      }
      var saved := rows;
      var record := rows[id];
      if data.isDefault == To(true) && !data.configType.SetNull? {
        var configType := if data.configType.To? then data.configType.value else record.configType;
        ClearedConsistent(rows, prompts, configType, Some(id));
        ClearedDefaults(rows, configType, id, Some(id));
        if Patched(record, data).Some? {
          ClearedSlugs(rows, configType, Some(id), Patched(record, data).value.slug, id);
        }
        ClearDefault(configType, Some(id));
      }
      var patched := SetAttributes(record, data);
      if patched.None? {
        rows := saved;
        return Some(IntegrityError);
      }
      PutConsistent(rows, prompts, id, patched.value);
      if !Consistent(rows[id := patched.value], prompts) {
        rows := saved;
        return Some(IntegrityError);
      }
      rows := rows[id := patched.value];
      return None;
    }

    /** The setattr loop over the keys that were sent; None when the flush would meet a null. */
    static method SetAttributes(record: Config, data: UpdateData) returns (r: Option<Config>)
      ensures r == Patched(record, data)
      ensures r.None? <==>
                data.slug.SetNull? || data.configType.SetNull? || data.isDefault.SetNull? || data.settings.SetNull?
      ensures r.Some? ==>
                && data.slug == (if data.slug.Keep? then Keep else To(r.value.slug))
                && data.configType == (if data.configType.Keep? then Keep else To(r.value.configType))
                && data.isDefault == (if data.isDefault.Keep? then Keep else To(r.value.isDefault))
                && data.settings == (if data.settings.Keep? then Keep else To(r.value.settings))
                && (data.systemPromptId.SetNull? ==> r.value.systemPromptId == None)
                && (data.systemPromptId.To? ==> r.value.systemPromptId == Some(data.systemPromptId.value))
                && (data.systemPromptId.Keep? ==> r.value.systemPromptId == record.systemPromptId)
      ensures r.Some? && data == UpdateData(Keep, Keep, Keep, Keep, Keep) ==> r.value == record
      ensures r.Some? ==> r.value.deleted == record.deleted
    {
      var config := record;
      if data.slug.SetNull? || data.configType.SetNull? || data.isDefault.SetNull? || data.settings.SetNull? {
        return None;
      }
      if data.slug.To? {
        config := config.(slug := data.slug.value);
      }
      if data.configType.To? {
        config := config.(configType := data.configType.value);
      }
      if data.isDefault.To? {
        config := config.(isDefault := data.isDefault.value);
      }
      if !data.systemPromptId.Keep? {
        config := config.(systemPromptId := if data.systemPromptId.To? then Some(data.systemPromptId.value) else None);
      }
      if data.settings.To? {
        config := config.(settings := data.settings.value);
      }
      return Some(config);
    }

    method DeleteRecord(id: ConfigId, ghost prompts: set<PromptId>) returns (found: bool)
      requires Consistent(rows, prompts)
      modifies this
      ensures Consistent(rows, prompts)
      ensures found <==> id in old(rows) && !old(rows)[id].deleted
      ensures rows == if found then old(rows)[id := old(rows)[id].(deleted := true)] else old(rows)
      ensures match SoftDelete(old(rows), id)
              case Success(next) => found && rows == next
              case Failure(_) => !found && rows == old(rows)
    {
      if !Live(rows, id) {
        return false;
      }
      rows := rows[id := rows[id].(deleted := true)];
      assert forall a :: Live(rows, a) ==> Live(old(rows), a) && rows[a] == old(rows)[a];
      return true;
    }

    method RestoreRecord(id: ConfigId, prompts: set<PromptId>) returns (error: Option<ConfigError>)
      requires Consistent(rows, prompts)
      modifies this
      ensures Consistent(rows, prompts)
      ensures error == Some(NotFound) <==> id !in old(rows)
      ensures error == Some(IntegrityError) <==>
                && id in old(rows)
                && (|| !SlugFree(old(rows), old(rows)[id].slug, id)
                    || (old(rows)[id].isDefault && !DefaultFree(old(rows), old(rows)[id].configType, id)))
      ensures rows == if error == None then old(rows)[id := old(rows)[id].(deleted := false)] else old(rows)
      ensures match Restore(old(rows), id)
              case Success(next) => error == None && rows == next
              case Failure(e) => error == Some(e) && rows == old(rows)
    {
      if id !in rows {
        return Some(NotFound);
      }
      var config := rows[id].(deleted := false);
      PutConsistent(rows, prompts, id, config);
      if !Consistent(rows[id := config], prompts) {
        return Some(IntegrityError);
      }
      rows := rows[id := config];
      return None;
    }

    /** Indexed holds the configs that chunk rows refer to: none of them ever goes. */
    method HardDeleteRecord(id: ConfigId, indexed: set<ConfigId>, ghost prompts: set<PromptId>)
      returns (error: Option<ConfigError>)
      requires Consistent(rows, prompts)
      modifies this
      ensures Consistent(rows, prompts)
      ensures error == Some(NotFound) <==> !(id in old(rows) && !old(rows)[id].deleted)
      ensures error == Some(IntegrityError) <==> id in old(rows) && !old(rows)[id].deleted && id in indexed
      ensures rows == if error == None then old(rows) - {id} else old(rows)
      ensures match HardDelete(old(rows), id, indexed)
              case Success(next) => error == None && rows == next
              case Failure(e) => error == Some(e) && rows == old(rows)
      ensures indexed <= old(rows).Keys ==> indexed <= rows.Keys
    {
      if !Live(rows, id) {
        return Some(NotFound);
      }
      if id in indexed {
        return Some(IntegrityError);
      }
      rows := rows - {id};
      assert forall a :: Live(rows, a) ==> Live(old(rows), a) && rows[a] == old(rows)[a];
      return None;
    }

    method GetDefaultForType(configType: string) returns (found: Option<ConfigId>)
      ensures found.Some? ==> IsDefaultFor(rows, configType, found.value)
      ensures found.None? ==> forall a :: !IsDefaultFor(rows, configType, a)
    {
      if a :| a in rows && IsDefaultFor(rows, configType, a) {
        return Some(a);
      }
      return None;
    }
  }
}
