/**
 System prompts and their versions (app/repositories/system_prompt_repository.py and
 app/commands/system_prompts).  Transactions are serialised; ids are chosen by the caller
 and a used one aborts the transaction.
 */
module SystemPrompts {
  import opened Wrappers

  type PromptId = nat
  type VersionId = nat

  const INITIAL_NOTE: string := "Initial version"

  datatype Version = Version(id: VersionId, promptId: PromptId, number: nat, content: string, note: Option<string>)

  datatype Prompt = Prompt(name: string, currentVersionId: Option<VersionId>)

  /** The two tables; versions in insertion order. */
  datatype Tables = Tables(prompts: map<PromptId, Prompt>, versions: seq<Version>)

  datatype PromptError = NotFound | NameTaken | IntegrityError | Conflict

  // ---------------------------------------------------------------- queries

  /** The versions of one prompt, in insertion order. */
  function VersionsOf(versions: seq<Version>, id: PromptId): seq<Version> {
    if versions == [] then []
    else (if versions[0].promptId == id then [versions[0]] else []) + VersionsOf(versions[1..], id)
  }

  /** The versions left after a cascading delete of a prompt. */
  function WithoutPrompt(versions: seq<Version>, id: PromptId): (rest: seq<Version>)
    ensures forall v :: v in rest <==> v in versions && v.promptId != id
  {
    if versions == [] then []
    else (if versions[0].promptId == id then [] else [versions[0]]) + WithoutPrompt(versions[1..], id)
  }

  /** The highest version number of a list, zero when it is empty. */
  function HighestNumber(versions: seq<Version>): nat {
    if versions == [] then 0
    else
      var rest := HighestNumber(versions[1..]);
      if versions[0].number > rest then versions[0].number else rest
  }

  function FindVersion(versions: seq<Version>, id: VersionId): Option<Version> {
    if versions == [] then None
    else if versions[0].id == id then Some(versions[0])
    else FindVersion(versions[1..], id)
  }

  predicate NameUsed(t: Tables, name: string) {
    exists p :: p in t.prompts && t.prompts[p].name == name
  }

  predicate VersionIdUsed(t: Tables, id: VersionId) {
    FindVersion(t.versions, id).Some?
  }

  /** get_current_content_by_id. */
  function CurrentContent(t: Tables, id: PromptId): Option<string> {
    if id !in t.prompts || t.prompts[id].currentVersionId.None? then None
    else
      var version := FindVersion(t.versions, t.prompts[id].currentVersionId.value);
      if version.None? then None else Some(version.value.content)
  }

  /** The content that is read, none as empty. */
  function ReadContent(t: Tables, id: PromptId): string {
    if CurrentContent(t, id).Some? then CurrentContent(t, id).value else ""
  }

  function OrEmpty(content: Option<string>): string {
    if content.Some? then content.value else ""
  }

  /** An absent or empty note reads as the initial one. */
  function NoteOrInitial(note: Option<string>): Option<string> {
    if note.None? || note.value == "" then Some(INITIAL_NOTE) else note
  }

  // ---------------------------------------------------------------- transactions

  function CreatePrompt(
      t: Tables, id: PromptId, versionId: VersionId, name: string, content: string, note: Option<string>)
    : Result<Tables, PromptError>
  {
    if NameUsed(t, name) then Failure(NameTaken)
    else if id in t.prompts || VersionIdUsed(t, versionId) then Failure(IntegrityError)
    else
      var first := Version(versionId, id, 1, content, NoteOrInitial(note));
      Success(Tables(t.prompts[id := Prompt(name, Some(versionId))], t.versions + [first]))
  }

  function Rename(t: Tables, id: PromptId, name: string): Result<Tables, PromptError> {
    if id !in t.prompts then Failure(NotFound)
    else if t.prompts[id].name != name && NameUsed(t, name) then Failure(NameTaken)
    else Success(t.(prompts := t.prompts[id := t.prompts[id].(name := name)]))
  }

  function CreateVersion(t: Tables, id: PromptId, versionId: VersionId, content: string, note: Option<string>)
    : Result<Tables, PromptError>
  {
    if id !in t.prompts then Failure(NotFound)
    else if VersionIdUsed(t, versionId) then Failure(IntegrityError)
    else
      var next := HighestNumber(VersionsOf(t.versions, id)) + 1;
      Success(Tables(t.prompts[id := t.prompts[id].(currentVersionId := Some(versionId))],
                     t.versions + [Version(versionId, id, next, content, note)]))
  }

  /** UpdateSystemPromptCommand: rename when a name is given, then a new version when the content differs. */
  function UpdatePrompt(
      t: Tables, id: PromptId, versionId: VersionId, name: Option<string>, content: Option<string>,
      note: Option<string>)
    : Result<Tables, PromptError>
  {
    var renamed := if id !in t.prompts then Failure(NotFound)
                   else if name.Some? then Rename(t, id, name.value) else Success(t);
    if renamed.Failure? then renamed
    else if content.None? || content.value == OrEmpty(CurrentContent(renamed.value, id)) then renamed
    else CreateVersion(renamed.value, id, versionId, content.value, note)
  }

  /** DeleteSystemPromptCommand, given the prompts that some config row refers to. */
  function DeletePrompt(t: Tables, id: PromptId, referenced: set<PromptId>): Result<Tables, PromptError> {
    if id !in t.prompts then Failure(NotFound)
    else if id in referenced then Failure(Conflict)
    else Success(Tables(t.prompts - {id}, WithoutPrompt(t.versions, id)))
  }

  // ---------------------------------------------------------------- the invariant

  /** Version numbers are exactly 1..n. */
  ghost predicate Dense(history: seq<Version>) {
    forall i :: 0 <= i < |history| ==> history[i].number == i + 1
  }

  /** The history is not empty, dense, and the current pointer is its last version. */
  ghost predicate HeadedBy(history: seq<Version>, current: Option<VersionId>) {
    history != [] && Dense(history) && current == Some(history[|history| - 1].id)
  }

  ghost predicate Headed(t: Tables, id: PromptId)
    requires id in t.prompts
  {
    HeadedBy(VersionsOf(t.versions, id), t.prompts[id].currentVersionId)
  }

  ghost predicate DistinctIds(versions: seq<Version>) {
    forall i, j :: 0 <= i < j < |versions| ==> versions[i].id != versions[j].id
  }

  ghost predicate Sound(t: Tables) {
    && (forall id :: id in t.prompts ==> Headed(t, id))
    && AllOwned(t.versions, t.prompts)
    && NamesUnique(t.prompts)
    && DistinctIds(t.versions)
  }

  ghost predicate AllOwned(versions: seq<Version>, prompts: map<PromptId, Prompt>) {
    forall v :: v in versions ==> v.promptId in prompts
  }

  ghost predicate NamesUnique(prompts: map<PromptId, Prompt>) {
    forall a, b | a in prompts && b in prompts && prompts[a].name == prompts[b].name :: a == b
  }

  lemma {:induction false} VersionsOfMembers(versions: seq<Version>, id: PromptId)
    ensures forall v :: v in VersionsOf(versions, id) <==> v in versions && v.promptId == id
  {
    if versions != [] {
      VersionsOfMembers(versions[1..], id);
    }
  }

  lemma Associate(a: seq<Version>, b: seq<Version>, c: seq<Version>)
    ensures (a + b) + c == a + (b + c)
  {
  }

  lemma {:induction false} VersionsOfConcat(a: seq<Version>, b: seq<Version>, id: PromptId)
    ensures VersionsOf(a + b, id) == VersionsOf(a, id) + VersionsOf(b, id)
  {
    if a == [] {
      assert a + b == b;
    } else {
      var head := if a[0].promptId == id then [a[0]] else [];
      assert (a + b)[0] == a[0] && (a + b)[1..] == a[1..] + b;
      VersionsOfConcat(a[1..], b, id);
      Associate(head, VersionsOf(a[1..], id), VersionsOf(b, id));
    }
  }

  lemma {:induction false} VersionsOfWithout(versions: seq<Version>, gone: PromptId, id: PromptId)
    requires gone != id
    ensures VersionsOf(WithoutPrompt(versions, gone), id) == VersionsOf(versions, id)
  {
    if versions != [] {
      VersionsOfWithout(versions[1..], gone, id);
      var head := if versions[0].promptId == gone then [] else [versions[0]];
      VersionsOfConcat(head, WithoutPrompt(versions[1..], gone), id);
    }
  }

  lemma {:induction false} WithoutKeepsDistinct(versions: seq<Version>, id: PromptId)
    requires DistinctIds(versions)
    ensures DistinctIds(WithoutPrompt(versions, id))
  {
    if versions != [] {
      WithoutKeepsDistinct(versions[1..], id);
      assert forall v :: v in versions[1..] ==> v.id != versions[0].id;
    }
  }

  lemma {:induction false} FindVersionIff(versions: seq<Version>, id: VersionId)
    ensures FindVersion(versions, id).Some? <==> exists v :: v in versions && v.id == id
    ensures FindVersion(versions, id).Some? ==>
              FindVersion(versions, id).value in versions && FindVersion(versions, id).value.id == id
  {
    if versions != [] {
      FindVersionIff(versions[1..], id);
    }
  }

  lemma FoundIsUnique(versions: seq<Version>, v: Version)
    requires DistinctIds(versions) && v in versions
    ensures FindVersion(versions, v.id) == Some(v)
  {
    FindVersionIff(versions, v.id);
  }

  lemma {:induction false} FindAppended(versions: seq<Version>, v: Version)
    requires FindVersion(versions, v.id).None?
    ensures FindVersion(versions + [v], v.id) == Some(v)
  {
    if versions == [] {
      assert versions + [v] == [v];
    } else {
      assert (versions + [v])[1..] == versions[1..] + [v];
      FindAppended(versions[1..], v);
    }
  }

  lemma {:induction false} HighestOfDense(history: seq<Version>, from: nat)
    requires forall i :: 0 <= i < |history| ==> history[i].number == from + i + 1
    ensures HighestNumber(history) == if history == [] then 0 else from + |history|
  {
    if history != [] {
      HighestOfDense(history[1..], from + 1);
    }
  }

  /** Appending a version under a new id adds it to its own prompt's history and to no other. */
  lemma AppendVersion(t: Tables, v: Version, id: PromptId)
    ensures VersionsOf(t.versions + [v], id)
            == if v.promptId == id then VersionsOf(t.versions, id) + [v] else VersionsOf(t.versions, id)
  {
    VersionsOfConcat(t.versions, [v], id);
    assert VersionsOf([v], id) == if v.promptId == id then [v] else [];
  }

  lemma AppendKeepsDistinct(versions: seq<Version>, v: Version)
    requires DistinctIds(versions) && FindVersion(versions, v.id).None?
    ensures DistinctIds(versions + [v])
  {
    FindVersionIff(versions, v.id);
  }

  lemma {:induction false} NoVersions(versions: seq<Version>, id: PromptId)
    requires forall v :: v in versions ==> v.promptId != id
    ensures VersionsOf(versions, id) == []
  {
    if versions != [] {
      NoVersions(versions[1..], id);
    }
  }

  lemma DenseAppend(history: seq<Version>, v: Version)
    requires Dense(history) && v.number == HighestNumber(history) + 1
    ensures Dense(history + [v])
  {
    HighestOfDense(history, 0);
  }

  /** Appending the next version and pointing to it keeps the prompt's own history headed. */
  lemma OwnHeaded(t: Tables, v: Version, prompts: map<PromptId, Prompt>)
    requires Dense(VersionsOf(t.versions, v.promptId))
    requires v.number == HighestNumber(VersionsOf(t.versions, v.promptId)) + 1
    requires v.promptId in prompts && prompts[v.promptId].currentVersionId == Some(v.id)
    ensures Headed(Tables(prompts, t.versions + [v]), v.promptId)
  {
    AppendVersion(t, v, v.promptId);
    DenseAppend(VersionsOf(t.versions, v.promptId), v);
  }

  lemma OtherHeaded(t: Tables, v: Version, prompts: map<PromptId, Prompt>, p: PromptId)
    requires p in t.prompts && Headed(t, p) && p != v.promptId
    requires p in prompts && prompts[p] == t.prompts[p]
    ensures Headed(Tables(prompts, t.versions + [v]), p)
  {
    AppendVersion(t, v, p);
  }

  lemma AppendOwned(versions: seq<Version>, v: Version, before: map<PromptId, Prompt>, after: map<PromptId, Prompt>)
    requires AllOwned(versions, before) && after.Keys == before.Keys + {v.promptId}
    ensures AllOwned(versions + [v], after)
  {
  }

  /** Both ways of adding a version keep the tables sound: the new one heads its prompt's history. */
  lemma AppendSound(t: Tables, v: Version, prompts: map<PromptId, Prompt>)
    requires Sound(t) && FindVersion(t.versions, v.id).None?
    requires v.number == HighestNumber(VersionsOf(t.versions, v.promptId)) + 1
    requires prompts.Keys == t.prompts.Keys + {v.promptId} && NamesUnique(prompts)
    requires forall p :: p in t.prompts && p != v.promptId ==> prompts[p] == t.prompts[p]
    requires prompts[v.promptId].currentVersionId == Some(v.id)
    ensures Sound(Tables(prompts, t.versions + [v]))
  {
    var next := Tables(prompts, t.versions + [v]);
    AppendKeepsDistinct(t.versions, v);
    AppendOwned(t.versions, v, t.prompts, prompts);
    if v.promptId in t.prompts {
      assert Headed(t, v.promptId);
    } else {
      NoVersions(t.versions, v.promptId);
    }
    OwnHeaded(t, v, prompts);
    forall p | p in prompts && p != v.promptId
      ensures Headed(next, p)
    {
      assert p in t.prompts && Headed(t, p);
      OtherHeaded(t, v, prompts, p);
    }
  }

  lemma CreatePromptSound(
      t: Tables, id: PromptId, versionId: VersionId, name: string, content: string, note: Option<string>)
    requires Sound(t) && CreatePrompt(t, id, versionId, name, content, note).Success?
    ensures Sound(CreatePrompt(t, id, versionId, name, content, note).value)
  {
    var prompts := t.prompts[id := Prompt(name, Some(versionId))];
    var first := Version(versionId, id, 1, content, NoteOrInitial(note));
    NoVersions(t.versions, id);
    AppendSound(t, first, prompts);
  }

  lemma RenameSound(t: Tables, id: PromptId, name: string)
    requires Sound(t) && Rename(t, id, name).Success?
    ensures Sound(Rename(t, id, name).value)
  {
    var next := Rename(t, id, name).value;
    forall p | p in next.prompts
      ensures Headed(next, p)
    {
      assert Headed(t, p);
    }
  }

  lemma PointingKeepsNames(prompts: map<PromptId, Prompt>, id: PromptId, versionId: VersionId)
    requires id in prompts && NamesUnique(prompts)
    ensures NamesUnique(prompts[id := prompts[id].(currentVersionId := Some(versionId))])
  {
    var next := prompts[id := prompts[id].(currentVersionId := Some(versionId))];
    assert forall p :: p in next ==> next[p].name == prompts[p].name;
  }

  lemma PointedSound(t: Tables, v: Version)
    requires Sound(t) && v.promptId in t.prompts && FindVersion(t.versions, v.id).None?
    requires v.number == HighestNumber(VersionsOf(t.versions, v.promptId)) + 1
    ensures Sound(Tables(t.prompts[v.promptId := t.prompts[v.promptId].(currentVersionId := Some(v.id))],
                         t.versions + [v]))
  {
    PointingKeepsNames(t.prompts, v.promptId, v.id);
    AppendSound(t, v, t.prompts[v.promptId := t.prompts[v.promptId].(currentVersionId := Some(v.id))]);
  }

  lemma CreateVersionSound(t: Tables, id: PromptId, versionId: VersionId, content: string, note: Option<string>)
    requires Sound(t) && CreateVersion(t, id, versionId, content, note).Success?
    ensures Sound(CreateVersion(t, id, versionId, content, note).value)
  {
    PointedSound(t, Version(versionId, id, HighestNumber(VersionsOf(t.versions, id)) + 1, content, note));
  }

  lemma UpdatePromptSound(
      t: Tables, id: PromptId, versionId: VersionId, name: Option<string>, content: Option<string>,
      note: Option<string>)
    requires Sound(t) && UpdatePrompt(t, id, versionId, name, content, note).Success?
    ensures Sound(UpdatePrompt(t, id, versionId, name, content, note).value)
  {
    var renamed := if name.Some? then Rename(t, id, name.value).value else t;
    if name.Some? {
      RenameSound(t, id, name.value);
    }
    if content.Some? && content.value != OrEmpty(CurrentContent(renamed, id)) {
      CreateVersionSound(renamed, id, versionId, content.value, note);
    }
  }

  /** The transaction keeps the tables sound and removes no prompt. */
  ghost predicate Keeps(t: Tables, next: Result<Tables, PromptError>) {
    next.Success? ==> Sound(next.value) && t.prompts.Keys <= next.value.prompts.Keys
  }

  lemma CreateKeeps(
      t: Tables, id: PromptId, versionId: VersionId, name: string, content: string, note: Option<string>)
    requires Sound(t)
    ensures Keeps(t, CreatePrompt(t, id, versionId, name, content, note))
  {
    if CreatePrompt(t, id, versionId, name, content, note).Success? {
      CreatePromptSound(t, id, versionId, name, content, note);
    }
  }

  lemma AddKeeps(t: Tables, id: PromptId, versionId: VersionId, content: string, note: Option<string>)
    requires Sound(t)
    ensures Keeps(t, CreateVersion(t, id, versionId, content, note))
  {
    if CreateVersion(t, id, versionId, content, note).Success? {
      CreateVersionSound(t, id, versionId, content, note);
    }
  }

  lemma UpdateKeeps(
      t: Tables, id: PromptId, versionId: VersionId, name: Option<string>, content: Option<string>,
      note: Option<string>)
    requires Sound(t)
    ensures Keeps(t, UpdatePrompt(t, id, versionId, name, content, note))
  {
    if UpdatePrompt(t, id, versionId, name, content, note).Success? {
      UpdatePromptSound(t, id, versionId, name, content, note);
    }
  }

  lemma DeletePromptSound(t: Tables, id: PromptId, referenced: set<PromptId>)
    requires Sound(t) && DeletePrompt(t, id, referenced).Success?
    ensures Sound(DeletePrompt(t, id, referenced).value)
  {
    var next := DeletePrompt(t, id, referenced).value;
    WithoutKeepsDistinct(t.versions, id);
    forall p | p in next.prompts
      ensures Headed(next, p)
    {
      VersionsOfWithout(t.versions, id, p);
      assert Headed(t, p);
    }
  }

  // ---------------------------------------------------------------- what readers see

  lemma DenseBound(history: seq<Version>)
    requires Dense(history)
    ensures forall v :: v in history ==> v.number <= |history|
  {
  }

  lemma HeadIsRead(t: Tables, id: PromptId)
    requires DistinctIds(t.versions) && id in t.prompts && Headed(t, id)
    ensures var history := VersionsOf(t.versions, id);
            CurrentContent(t, id) == Some(history[|history| - 1].content)
  {
    var history := VersionsOf(t.versions, id);
    var last := history[|history| - 1];
    assert last in history;
    VersionsOfMembers(t.versions, id);
    FoundIsUnique(t.versions, last);
  }

  /** In a sound state the content read back is that of the highest-numbered version, the last of the history. */
  lemma CurrentIsHighest(t: Tables, id: PromptId)
    requires Sound(t) && id in t.prompts
    ensures var history := VersionsOf(t.versions, id);
            && history != []
            && CurrentContent(t, id) == Some(history[|history| - 1].content)
            && history[|history| - 1].number == |history|
            && forall v :: v in t.versions && v.promptId == id ==> v.number <= |history|
  {
    assert Headed(t, id);
    HeadIsRead(t, id);
    VersionsOfMembers(t.versions, id);
    DenseBound(VersionsOf(t.versions, id));
  }

  /** After an update with content, that content is read back, with none read as empty; in any state at all. */
  lemma UpdateReadsBack(
      t: Tables, id: PromptId, versionId: VersionId, name: Option<string>, content: string,
      note: Option<string>)
    requires UpdatePrompt(t, id, versionId, name, Some(content), note).Success?
    ensures ReadContent(UpdatePrompt(t, id, versionId, name, Some(content), note).value, id) == content
  {
    var renamed := if name.Some? then Rename(t, id, name.value).value else t;
    if content != OrEmpty(CurrentContent(renamed, id)) {
      var next := CreateVersion(renamed, id, versionId, content, note).value;
      FindAppended(renamed.versions, next.versions[|renamed.versions|]);
    }
  }

  /** Repeating an update changes nothing: no further version, and the same names. */
  lemma UpdateIdempotent(
      t: Tables, id: PromptId, first: VersionId, second: VersionId, name: Option<string>,
      content: Option<string>, note: Option<string>)
    requires UpdatePrompt(t, id, first, name, content, note).Success?
    ensures var next := UpdatePrompt(t, id, first, name, content, note).value;
            UpdatePrompt(next, id, second, name, content, note) == Success(next)
  {
    var next := UpdatePrompt(t, id, first, name, content, note).value;
    if content.Some? {
      UpdateReadsBack(t, id, first, name, content.value, note);
    }
    assert name.Some? ==> next.prompts[id].name == name.value;
    assert name.Some? ==> next.prompts[id := next.prompts[id].(name := name.value)] == next.prompts;
  }

  /** A version is added exactly when the content sent differs from the content read back. */
  lemma UpdateAddsVersionIff(
      t: Tables, id: PromptId, versionId: VersionId, name: Option<string>, content: Option<string>,
      note: Option<string>)
    requires UpdatePrompt(t, id, versionId, name, content, note).Success?
    ensures |UpdatePrompt(t, id, versionId, name, content, note).value.versions|
            == |t.versions| + if content.Some? && content.value != ReadContent(t, id) then 1 else 0
  {
    var renamed := if name.Some? then Rename(t, id, name.value).value else t;
    assert CurrentContent(renamed, id) == CurrentContent(t, id);
  }

  // ---------------------------------------------------------------- what a caller is promised, field by field

  /** One more than the highest number of the prompt's versions, one when it has none. */
  ghost predicate IsNextNumber(n: nat, versions: seq<Version>, id: PromptId) {
    && (forall v :: v in versions && v.promptId == id ==> v.number < n)
    && (n == 1 || exists v :: v in versions && v.promptId == id && v.number == n - 1)
  }

  lemma {:induction false} HighestBounds(history: seq<Version>)
    ensures forall v :: v in history ==> v.number <= HighestNumber(history)
    ensures HighestNumber(history) == 0 || exists v :: v in history && v.number == HighestNumber(history)
  {
    if history != [] {
      HighestBounds(history[1..]);
      assert history[0] in history;
    }
  }

  lemma HighestIsNext(versions: seq<Version>, id: PromptId)
    ensures IsNextNumber(HighestNumber(VersionsOf(versions, id)) + 1, versions, id)
  {
    HighestBounds(VersionsOf(versions, id));
    VersionsOfMembers(versions, id);
  }

  /** What an update answers and leaves behind. */
  ghost predicate UpdateMeans(
      before: Tables, id: PromptId, versionId: VersionId, name: Option<string>, content: Option<string>,
      note: Option<string>, error: Option<PromptError>, after: Tables)
  {
    var renames := name.Some? && id in before.prompts && before.prompts[id].name != name.value;
    var adds := content.Some? && content.value != ReadContent(before, id);
    if id !in before.prompts then error == Some(NotFound) && after == before
    else if renames && exists p :: p in before.prompts && before.prompts[p].name == name.value then
      error == Some(NameTaken) && after == before
    else if adds && exists v :: v in before.versions && v.id == versionId then
      error == Some(IntegrityError) && after == before
    else
      && error == None && after.prompts.Keys == before.prompts.Keys
      && (forall p :: p in before.prompts && p != id ==> after.prompts[p] == before.prompts[p])
      && after.prompts[id].name == (if name.Some? then name.value else before.prompts[id].name)
      && (content.Some? ==> ReadContent(after, id) == content.value)
      && (content.None? ==> ReadContent(after, id) == ReadContent(before, id))
      && if !adds then after.versions == before.versions
         else && |after.versions| == |before.versions| + 1
              && var added := after.versions[|before.versions|];
                 && after.versions == before.versions + [added]
                 && added == Version(versionId, id, added.number, content.value, note)
                 && IsNextNumber(added.number, before.versions, id)
  }

  lemma UpdateFailure(
      t: Tables, id: PromptId, versionId: VersionId, name: Option<string>, content: Option<string>,
      note: Option<string>)
    requires UpdatePrompt(t, id, versionId, name, content, note).Failure?
    ensures UpdateMeans(t, id, versionId, name, content, note,
                        Some(UpdatePrompt(t, id, versionId, name, content, note).error), t)
  {
    FindVersionIff(t.versions, versionId);
    if id in t.prompts && name.Some? && Rename(t, id, name.value).Success? {
      RenameKeepsContent(t, id, name.value);
    }
  }

  lemma RenameKeepsContent(t: Tables, id: PromptId, name: string)
    requires Rename(t, id, name).Success?
    ensures CurrentContent(Rename(t, id, name).value, id) == CurrentContent(t, id)
  {
  }

  lemma UpdateSuccess(
      t: Tables, id: PromptId, versionId: VersionId, name: Option<string>, content: Option<string>,
      note: Option<string>)
    requires UpdatePrompt(t, id, versionId, name, content, note).Success?
    ensures UpdateMeans(t, id, versionId, name, content, note,
                        None, UpdatePrompt(t, id, versionId, name, content, note).value)
  {
    FindVersionIff(t.versions, versionId);
    HighestIsNext(t.versions, id);
    if name.Some? {
      RenameKeepsContent(t, id, name.value);
    }
    if content.Some? {
      UpdateReadsBack(t, id, versionId, name, content.value, note);
    }
  }

  lemma UpdateMeaning(
      t: Tables, id: PromptId, versionId: VersionId, name: Option<string>, content: Option<string>,
      note: Option<string>)
    ensures var next := UpdatePrompt(t, id, versionId, name, content, note);
            UpdateMeans(t, id, versionId, name, content, note,
                        if next.Success? then None else Some(next.error), if next.Success? then next.value else t)
  {
    if UpdatePrompt(t, id, versionId, name, content, note).Success? {
      UpdateSuccess(t, id, versionId, name, content, note);
    } else {
      UpdateFailure(t, id, versionId, name, content, note);
    }
  }

  // ---------------------------------------------------------------- the repository

  class SystemPromptRepository {
    var prompts: map<PromptId, Prompt>
    var versions: seq<Version>

    function View(): Tables
      reads this
    {
      Tables(prompts, versions)
    }

    constructor ()
      ensures View() == Tables(map[], [])
    {
      prompts, versions := map[], [];
    }

    method Create(id: PromptId, versionId: VersionId, name: string, content: string, note: Option<string>)
      returns (error: Option<PromptError>)
      modifies this
      ensures CreatePrompt(old(View()), id, versionId, name, content, note)
              == if error == None then Success(View()) else Failure(error.value)
      ensures error.Some? ==> View() == old(View())
      ensures error == Some(NameTaken) <==> exists p :: p in old(prompts) && old(prompts)[p].name == name
      ensures error == Some(IntegrityError) <==>
                && (forall p :: p in old(prompts) ==> old(prompts)[p].name != name)
                && (id in old(prompts) || exists v :: v in old(versions) && v.id == versionId)
      ensures error == None ==>
                && prompts == old(prompts)[id := Prompt(name, Some(versionId))]
                && versions == old(versions) + [Version(versionId, id, 1, content,
                                                        if note.None? || note == Some("") then Some("Initial version")
                                                        else note)]
    {
      FindVersionIff(versions, versionId);
      if p :| p in prompts && prompts[p].name == name {
        return Some(NameTaken);
      }
      if id in prompts {
        return Some(IntegrityError);
      }
      var saved := prompts;
      prompts := prompts[id := Prompt(name, None)];
      if FindVersion(versions, versionId).Some? {
        prompts := saved;
        return Some(IntegrityError);
      }
      var stored := NoteOrInitial(note);
      versions := versions + [Version(versionId, id, 1, content, stored)];
      prompts := prompts[id := prompts[id].(currentVersionId := Some(versionId))];
      assert prompts == saved[id := Prompt(name, Some(versionId))];
      return None;
    }

    method UpdateName(id: PromptId, name: string) returns (error: Option<PromptError>)
      modifies this`prompts
      ensures Rename(old(View()), id, name) == if error == None then Success(View()) else Failure(error.value)
      ensures error.Some? ==> View() == old(View())
      ensures error == Some(NotFound) <==> id !in old(prompts)
      ensures error == Some(NameTaken) <==>
                && id in old(prompts) && old(prompts)[id].name != name
                && exists p :: p in old(prompts) && old(prompts)[p].name == name
      ensures error == None ==> prompts == old(prompts)[id := Prompt(name, old(prompts)[id].currentVersionId)]
    {
      if id !in prompts {
        return Some(NotFound);
      }
      if prompts[id].name != name {
        if p :| p in prompts && prompts[p].name == name {
          return Some(NameTaken);
        }
      }
      prompts := prompts[id := prompts[id].(name := name)];
      return None;
    }

    method AddVersion(id: PromptId, versionId: VersionId, content: string, note: Option<string>)
      returns (error: Option<PromptError>)
      modifies this
      ensures CreateVersion(old(View()), id, versionId, content, note)
              == if error == None then Success(View()) else Failure(error.value)
      ensures error.Some? ==> View() == old(View())
      ensures error == Some(NotFound) <==> id !in old(prompts)
      ensures error == Some(IntegrityError) <==>
                id in old(prompts) && exists v :: v in old(versions) && v.id == versionId
      ensures error == None ==>
                && prompts == old(prompts)[id := Prompt(old(prompts)[id].name, Some(versionId))]
                && |versions| == |old(versions)| + 1
                && var added := versions[|old(versions)|];
                   && versions == old(versions) + [added]
                   && added == Version(versionId, id, added.number, content, note)
                   && IsNextNumber(added.number, old(versions), id)
    {
      if id !in prompts {
        return Some(NotFound);
      }
      FindVersionIff(versions, versionId);
      HighestIsNext(versions, id);
      var nextVersion := 1;
      var latest := HighestNumber(VersionsOf(versions, id));
      if latest != 0 {
        nextVersion := latest + 1;
      }
      if FindVersion(versions, versionId).Some? {
        return Some(IntegrityError);
      }
      versions := versions + [Version(versionId, id, nextVersion, content, note)];
      prompts := prompts[id := prompts[id].(currentVersionId := Some(versionId))];
      return None;
    }

    /** The whole command is one transaction: an error after the rename rolls the rename back. */
    method Update(
        id: PromptId, versionId: VersionId, name: Option<string>, content: Option<string>, note: Option<string>)
      returns (error: Option<PromptError>)
      modifies this
      ensures UpdatePrompt(old(View()), id, versionId, name, content, note)
              == if error == None then Success(View()) else Failure(error.value)
      ensures error.Some? ==> View() == old(View())
      ensures UpdateMeans(old(View()), id, versionId, name, content, note, error, View())
    {
      UpdateMeaning(View(), id, versionId, name, content, note);
      if id !in prompts {
        return Some(NotFound);
      }
      var savedPrompts, savedVersions := prompts, versions;
      error := None;
      if name.Some? {
        error := UpdateName(id, name.value);
        if error.Some? {
          return;
        }
      }
      var current := CurrentContent(View(), id);
      if content.Some? && content.value != OrEmpty(current) {
        error := AddVersion(id, versionId, content.value, note);
        if error.Some? {
          prompts, versions := savedPrompts, savedVersions;
        }
      }
    }

    method Delete(id: PromptId, referenced: set<PromptId>) returns (error: Option<PromptError>)
      modifies this
      ensures DeletePrompt(old(View()), id, referenced)
              == if error == None then Success(View()) else Failure(error.value)
      ensures error.Some? ==> View() == old(View())
      ensures error == Some(NotFound) <==> id !in old(prompts)
      ensures error == Some(Conflict) <==> id in old(prompts) && id in referenced
      ensures error == None ==>
                && prompts == old(prompts) - {id}
                && (forall v :: v in versions <==> v in old(versions) && v.promptId != id)
                && forall p :: p != id ==> VersionsOf(versions, p) == VersionsOf(old(versions), p)
    {
      if id !in prompts {
        return Some(NotFound);
      }
      if id in referenced {
        return Some(Conflict);
      }
      prompts := prompts - {id};
      versions := WithoutPrompt(versions, id);
      forall p | p != id
        ensures VersionsOf(versions, p) == VersionsOf(old(versions), p)
      {
        VersionsOfWithout(old(versions), id, p);
      }
      return None;
    }
  }
}
