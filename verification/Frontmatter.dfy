/**
 Splitting an uploaded document into frontmatter and body, and normalising the parsed
 frontmatter (app/services/knowledge/frontmatter.py).

 The regular expression \A---\n(.*?)\n---\n?(.*)\Z is modelled by the search it performs:
 the lazy group ends at the earliest delimiter after the opening line, one newline after
 the delimiter is taken when there is one, and the body is the rest.
 */
module Frontmatter {
  import opened Wrappers

  const OPENING: string := "---\n"
  const DELIMITER: string := "\n---"

  // ---------------------------------------------------------------- splitting

  predicate StartsWith(s: string, prefix: string) {
    prefix <= s
  }

  /** The first position at or after from where the delimiter occurs. */
  function FindDelimiter(s: string, from: nat): (at: Option<nat>)
    requires from <= |s|
    ensures at.Some? ==> from <= at.value <= |s| - |DELIMITER| && DelimiterAt(s, at.value)
    ensures at.Some? ==> forall k :: from <= k < at.value ==> !DelimiterAt(s, k)
    ensures at.None? ==> forall k :: from <= k <= |s| ==> !DelimiterAt(s, k)
    decreases |s| - from
  {
    if DelimiterAt(s, from) then Some(from)
    else if from == |s| then None
    else FindDelimiter(s, from + 1)
  }

  predicate DelimiterAt(s: string, k: nat) {
    k + |DELIMITER| <= |s| && s[k..k + |DELIMITER|] == DELIMITER
  }

  datatype Parts = Parts(block: string, body: string)

  /** The match of the regular expression: None when it does not match. */
  function Match(raw: string): Option<Parts> {
    if !StartsWith(raw, OPENING) then None
    else
      var at := FindDelimiter(raw, |OPENING|);
      if at.None? then None
      else
        var rest := raw[at.value + |DELIMITER|..];
        var body := if StartsWith(rest, "\n") then rest[1..] else rest;
        Some(Parts(raw[|OPENING|..at.value], body))
  }

  /** The document that carries block as its frontmatter and body after it. */
  function Join(block: string, body: string): string {
    "---\n" + block + "\n---" + "\n" + body
  }

  /** The same document without the newline that the expression may skip. */
  function JoinTight(block: string, body: string): string {
    "---\n" + block + "\n---" + body
  }

  ghost predicate HasDelimiter(s: string) {
    exists k: nat :: DelimiterAt(s, k)
  }

  /** The document opens a block and closes it. */
  ghost predicate HasBlock(raw: string) {
    StartsWith(raw, "---\n") && exists k: nat :: 4 <= k && DelimiterAt(raw, k)
  }

  lemma DelimiterShift(block: string, tail: string, k: nat)
    ensures var raw := OPENING + block + DELIMITER + tail;
            k < |block| ==> (DelimiterAt(raw, |OPENING| + k) <==> DelimiterAt(block, k))
    ensures var raw := OPENING + block + DELIMITER + tail;
            DelimiterAt(raw, |OPENING| + |block|)
  {
    var raw := OPENING + block + DELIMITER + tail;
    var n := |OPENING| + |block|;
    assert raw[n..n + |DELIMITER|] == DELIMITER;
    if k < |block| {
      var p := |OPENING| + k;
      if k + |DELIMITER| <= |block| {
        assert raw[p..p + |DELIMITER|] == block[k..k + |DELIMITER|];
      } else {
        // A delimiter here would overlap the one that closes the block, and the newline
        // of that one would fall on a dash.
        var q := |block| - k;
        assert raw[p..p + |DELIMITER|][q] == raw[n..n + |DELIMITER|][0];
        assert DELIMITER[q] == '-';
      }
    }
  }

  /** In an assembled document the first delimiter closes the block, unless the block holds one itself. */
  lemma FirstDelimiter(block: string, tail: string)
    ensures var at := FindDelimiter(OPENING + block + DELIMITER + tail, |OPENING|);
            at.Some? && at.value <= |OPENING| + |block|
            && (at.value == |OPENING| + |block| <==> !HasDelimiter(block))
  {
    var raw := OPENING + block + DELIMITER + tail;
    var at := FindDelimiter(raw, |OPENING|);
    DelimiterShift(block, tail, 0);
    if HasDelimiter(block) {
      var k: nat :| DelimiterAt(block, k);
      DelimiterShift(block, tail, k);
      assert DelimiterAt(raw, |OPENING| + k);
    } else {
      forall k | |OPENING| <= k < |OPENING| + |block|
        ensures !DelimiterAt(raw, k)
      {
        DelimiterShift(block, tail, k - |OPENING|);
      }
    }
  }

  /** Splitting undoes joining exactly on the blocks that do not contain the delimiter. */
  lemma SplitJoin(block: string, body: string)
    ensures Match(Join(block, body)) == Some(Parts(block, body)) <==> !HasDelimiter(block)
  {
    var tail := "\n" + body;
    var raw := Join(block, body);
    assert raw == OPENING + block + DELIMITER + tail;
    FirstDelimiter(block, tail);
    var at := FindDelimiter(raw, |OPENING|);
    assert StartsWith(raw, OPENING);
    assert raw[|OPENING|..|OPENING| + |block|] == block;
    assert raw[|OPENING| + |block| + |DELIMITER|..] == tail;
    assert tail[1..] == body;
    if HasDelimiter(block) {
      assert |raw[|OPENING|..at.value]| < |block|;
    }
  }

  lemma SplitJoinTight(block: string, body: string)
    requires !HasDelimiter(block) && !StartsWith(body, "\n")
    ensures Match(JoinTight(block, body)) == Some(Parts(block, body))
  {
    var raw := JoinTight(block, body);
    FirstDelimiter(block, body);
    assert raw[|OPENING|..|OPENING| + |block|] == block;
    assert raw[|OPENING| + |block| + |DELIMITER|..] == body;
  }

  lemma SliceOfSlice(s: string, from: nat, to: nat, i: nat, j: nat)
    requires from <= to <= |s| && i <= j <= to - from
    ensures s[from..to][i..j] == s[from + i..from + j]
  {
    var inner := s[from..to];
    assert forall k :: i <= k < j ==> inner[k] == s[from + k];
    assert forall k :: 0 <= k < j - i ==> inner[i..j][k] == s[from + i..from + j][k];
  }

  lemma NoDelimiterInside(raw: string, at: nat)
    requires |OPENING| <= at <= |raw|
    requires forall k :: |OPENING| <= k < at ==> !DelimiterAt(raw, k)
    ensures !HasDelimiter(raw[|OPENING|..at])
  {
    var block := raw[|OPENING|..at];
    forall k: nat
      ensures !DelimiterAt(block, k)
    {
      if k + |DELIMITER| <= |block| {
        var p := |OPENING| + k;
        assert !DelimiterAt(raw, p);
        SliceOfSlice(raw, |OPENING|, at, k, k + |DELIMITER|);
      }
    }
  }

  lemma FourParts(s: string, a: nat, b: nat, c: nat)
    requires a <= b <= c <= |s|
    ensures s == s[..a] + s[a..b] + s[b..c] + s[c..]
  {
    assert s[..a] + s[a..b] == s[..b];
    assert s[..b] + s[b..c] == s[..c];
  }

  lemma RebuildsTight(raw: string, at: nat)
    requires |OPENING| <= at <= |raw| && StartsWith(raw, OPENING) && DelimiterAt(raw, at)
    ensures at + |DELIMITER| <= |raw|
    ensures raw == JoinTight(raw[|OPENING|..at], raw[at + |DELIMITER|..])
  {
    FourParts(raw, |OPENING|, at, at + |DELIMITER|);
  }

  lemma MatchRebuilds(raw: string, block: string, body: string)
    requires Match(raw) == Some(Parts(block, body))
    ensures !HasDelimiter(block)
    ensures raw == Join(block, body) || (raw == JoinTight(block, body) && !StartsWith(body, "\n"))
  {
    var at := FindDelimiter(raw, |OPENING|).value;
    NoDelimiterInside(raw, at);
    var rest := raw[at + |DELIMITER|..];
    RebuildsTight(raw, at);
    if StartsWith(rest, "\n") {
      assert rest == "\n" + body;
      assert raw == Join(block, body);
    }
  }

  /** A split rebuilds its input up to the optional newline, and every such decomposition is found. */
  lemma MatchIff(raw: string, block: string, body: string)
    ensures Match(raw) == Some(Parts(block, body))
            <==> !HasDelimiter(block)
                 && (raw == Join(block, body) || (raw == JoinTight(block, body) && !StartsWith(body, "\n")))
  {
    if Match(raw) == Some(Parts(block, body)) {
      MatchRebuilds(raw, block, body);
    } else if !HasDelimiter(block) && raw == Join(block, body) {
      SplitJoin(block, body);
    } else if !HasDelimiter(block) && raw == JoinTight(block, body) && !StartsWith(body, "\n") {
      SplitJoinTight(block, body);
    }
  }

  /** There is no split exactly when the input does not open a block or never closes one. */
  lemma NoMatchIff(raw: string)
    ensures Match(raw).None? <==> !HasBlock(raw)
  {
  }

  // ---------------------------------------------------------------- normalising

  /** The text of isoformat: digits, signs and separators. */
  type IsoText = s: string | NulFree(s) witness ""

  predicate NulFree(s: string) {
    '\0' !in s
  }

  /**
   What the YAML loader can produce, as a finite tree.  NonFinite is a float that is nan or
   an infinity.  Other is any value of a type the normaliser does not know.
   */
  datatype Yaml =
    | Null
    | Bool(b: bool)
    | Int(n: int)
    | Float(literal: string)
    | NonFinite(literal: string)
    | Str(s: string)
    | Date(iso: IsoText)
    | List(items: seq<Yaml>)
    | Map(entries: seq<Entry>)
    | Other(typeName: string)

  datatype Entry = Entry(key: Yaml, value: Yaml)

  datatype FrontmatterError =
    | InvalidYaml(message: string)
    | NotAMapping
    | NonStringKey
    | UnsupportedValue(typeName: string)

  predicate StringKeys(entries: seq<Entry>) {
    forall i :: 0 <= i < |entries| ==> entries[i].key.Str?
  }

  function Normalise(value: Yaml): Result<Yaml, FrontmatterError>
    decreases value
  {
    match value
    case Date(iso) => Success(Str(iso))
    case List(items) =>
      var r := NormaliseItems(items);
      if r.Failure? then Failure(r.error) else Success(List(r.value))
    case Map(entries) =>
      if !StringKeys(entries) then Failure(NonStringKey)
      else
        var r := NormaliseEntries(entries);
        if r.Failure? then Failure(r.error) else Success(Map(r.value))
    case Other(name) => Failure(UnsupportedValue(name))
    case _ => Success(value)
  }

  function NormaliseItems(items: seq<Yaml>): (r: Result<seq<Yaml>, FrontmatterError>)
    ensures r.Success? ==> |r.value| == |items|
    decreases items
  {
    if items == [] then Success([])
    else
      var head := Normalise(items[0]);
      if head.Failure? then Failure(head.error)
      else
        var tail := NormaliseItems(items[1..]);
        if tail.Failure? then tail else Success([head.value] + tail.value)
  }

  function NormaliseEntries(entries: seq<Entry>): (r: Result<seq<Entry>, FrontmatterError>)
    ensures r.Success? ==> |r.value| == |entries|
    decreases entries
  {
    if entries == [] then Success([])
    else
      var head := NormaliseEntry(entries[0]);
      if head.Failure? then Failure(head.error)
      else
        var tail := NormaliseEntries(entries[1..]);
        if tail.Failure? then tail else Success([head.value] + tail.value)
  }

  function NormaliseEntry(entry: Entry): Result<Entry, FrontmatterError>
    decreases entry
  {
    var r := Normalise(entry.value);
    if r.Failure? then Failure(r.error) else Success(Entry(entry.key, r.value))
  }

  /** The part of a tree that a path of child indices leads to. Keys are not visited. */
  function At(value: Yaml, path: seq<nat>): Option<Yaml>
    decreases |path|
  {
    if path == [] then Some(value)
    else if value.List? && path[0] < |value.items| then At(value.items[path[0]], path[1..])
    else if value.Map? && path[0] < |value.entries| then At(value.entries[path[0]].value, path[1..])
    else None
  }

  /** A node the normaliser cannot represent: an unknown type, or a map with a key that is not a string. */
  predicate Offending(value: Yaml) {
    value.Other? || (value.Map? && !StringKeys(value.entries))
  }

  ghost predicate OffendingAt(value: Yaml, path: seq<nat>) {
    var node := At(value, path);
    node.Some? && Offending(node.value)
  }

  /** A node the normaliser leaves as it is: no date, no unknown type, string keys. */
  ghost predicate SettledNode(value: Yaml) {
    !Offending(value) && !value.Date?
  }

  /** A node that JSON has: it has no number that is not finite. */
  ghost predicate JsonNode(value: Yaml) {
    SettledNode(value) && !value.NonFinite?
  }

  /** A node without text that a JSONB column refuses, in a string or in a key. */
  predicate NulFreeNode(value: Yaml) {
    && (value.Str? ==> '\0' !in value.s)
    && (value.Map? ==>
          forall i :: 0 <= i < |value.entries| && value.entries[i].key.Str? ==> '\0' !in value.entries[i].key.s)
  }

  ghost predicate SettledTree(value: Yaml) {
    forall path: seq<nat> :: At(value, path).Some? ==> SettledNode(At(value, path).value)
  }

  ghost predicate JsonTree(value: Yaml) {
    forall path: seq<nat> :: At(value, path).Some? ==> JsonNode(At(value, path).value)
  }

  /** No number in the tree is nan or an infinity. */
  ghost predicate Finite(value: Yaml) {
    forall path: seq<nat> :: At(value, path).Some? ==> !At(value, path).value.NonFinite?
  }

  ghost predicate NulFreeTree(value: Yaml) {
    forall path: seq<nat> :: At(value, path).Some? ==> NulFreeNode(At(value, path).value)
  }

  /** What a JSONB column takes. */
  predicate Storable(value: Yaml)
    decreases value
  {
    match value
    case Str(s) => NulFree(s)
    case List(items) => forall i :: 0 <= i < |items| ==> Storable(items[i])
    case Map(entries) => forall i :: 0 <= i < |entries| ==> StorableEntry(entries[i])
    case NonFinite(_) => false
    case Date(_) => false
    case Other(_) => false
    case _ => true
  }

  predicate StorableEntry(entry: Entry)
    decreases entry
  {
    entry.key.Str? && NulFree(entry.key.s) && Storable(entry.value)
  }

  lemma {:induction false} ItemsPointwise(items: seq<Yaml>)
    ensures NormaliseItems(items).Success? <==> forall i :: 0 <= i < |items| ==> Normalise(items[i]).Success?
    ensures NormaliseItems(items).Success? ==>
              forall i :: 0 <= i < |items| ==> Success(NormaliseItems(items).value[i]) == Normalise(items[i])
  {
    if items != [] {
      ItemsPointwise(items[1..]);
      assert forall i :: 0 < i < |items| ==> items[i] == items[1..][i - 1];
    }
  }

  lemma {:induction false} EntriesPointwise(entries: seq<Entry>)
    ensures NormaliseEntries(entries).Success?
            <==> forall i :: 0 <= i < |entries| ==> Normalise(entries[i].value).Success?
    ensures NormaliseEntries(entries).Success? ==>
              forall i :: 0 <= i < |entries| ==>
                            && NormaliseEntries(entries).value[i].key == entries[i].key
                            && Success(NormaliseEntries(entries).value[i].value) == Normalise(entries[i].value)
  {
    if entries != [] {
      EntriesPointwise(entries[1..]);
      assert forall i :: 0 < i < |entries| ==> entries[i] == entries[1..][i - 1];
    }
  }

  /** Both are maps with the same keys in the same order, or neither is a map. */
  ghost predicate SameKeys(a: Yaml, b: Yaml) {
    && (a.Map? <==> b.Map?)
    && (a.Map? ==> |a.entries| == |b.entries|
                   && forall i :: 0 <= i < |a.entries| ==> a.entries[i].key == b.entries[i].key)
  }

  lemma KeysKept(value: Yaml)
    requires Normalise(value).Success?
    ensures SameKeys(value, Normalise(value).value)
  {
    if value.Map? {
      EntriesPointwise(value.entries);
    }
  }

  /** What a node becomes: a date its isoformat text, everything else itself, lists and maps with their children. */
  ghost predicate Becomes(node: Yaml, out: Yaml) {
    match node
    case Date(iso) => out == Str(iso)
    case List(items) => out.List? && |out.items| == |items|
    case Map(entries) => SameKeys(node, out)
    case _ => out == node
  }

  /** Dates are replaced by their text, at every path, and nothing else changes. */
  ghost predicate Isoformatted(value: Yaml, out: Yaml) {
    forall path: seq<nat> ::
      && (At(value, path).Some? <==> At(out, path).Some?)
      && (At(value, path).Some? ==> Becomes(At(value, path).value, At(out, path).value))
  }

  lemma NormaliseIsoformats(value: Yaml)
    requires Normalise(value).Success?
    ensures Isoformatted(value, Normalise(value).value)
  {
    forall path: seq<nat>
      ensures At(value, path).Some? <==> At(Normalise(value).value, path).Some?
      ensures At(value, path).Some? ==> Becomes(At(value, path).value, At(Normalise(value).value, path).value)
    {
      NormaliseAt(value, path);
      if At(value, path).Some? {
        NodeBecomes(At(value, path).value);
      }
    }
  }

  lemma NodeBecomes(value: Yaml)
    requires Normalise(value).Success?
    ensures Becomes(value, Normalise(value).value)
  {
    KeysKept(value);
    if value.List? {
      ItemsPointwise(value.items);
    }
  }

  // ---------------------------------------------------------------- the first node that cannot be represented

  /** The nodes of a tree in document order. */
  function Nodes(value: Yaml): seq<Yaml>
    decreases value
  {
    [value] + (if value.List? then NodesOfItems(value.items)
               else if value.Map? then NodesOfEntries(value.entries) else [])
  }

  function NodesOfItems(items: seq<Yaml>): seq<Yaml>
    decreases items
  {
    if items == [] then [] else Nodes(items[0]) + NodesOfItems(items[1..])
  }

  function NodesOfEntries(entries: seq<Entry>): seq<Yaml>
    decreases entries
  {
    if entries == [] then [] else NodesOfEntry(entries[0]) + NodesOfEntries(entries[1..])
  }

  function NodesOfEntry(entry: Entry): seq<Yaml>
    decreases entry
  {
    Nodes(entry.value)
  }

  /** The error of the first offending node, if there is one. */
  function FirstError(nodes: seq<Yaml>): Option<FrontmatterError> {
    if nodes == [] then None
    else if nodes[0].Other? then Some(UnsupportedValue(nodes[0].typeName))
    else if Offending(nodes[0]) then Some(NonStringKey)
    else FirstError(nodes[1..])
  }

  lemma {:induction false} FirstErrorConcat(a: seq<Yaml>, b: seq<Yaml>)
    ensures FirstError(a + b) == if FirstError(a).Some? then FirstError(a) else FirstError(b)
  {
    if a == [] {
      assert a + b == b;
    } else {
      assert (a + b)[0] == a[0] && (a + b)[1..] == a[1..] + b;
      FirstErrorConcat(a[1..], b);
    }
  }

  function ErrorOf<T>(r: Result<T, FrontmatterError>): Option<FrontmatterError> {
    if r.Failure? then Some(r.error) else None
  }

  /** Normalising fails with the error of the first offending node in document order, and only then. */
  lemma {:induction false} NormaliseError(value: Yaml)
    ensures ErrorOf(Normalise(value)) == FirstError(Nodes(value))
    decreases value, 1
  {
    var below := if value.List? then NodesOfItems(value.items)
                 else if value.Map? then NodesOfEntries(value.entries) else [];
    FirstErrorConcat([value], below);
    assert [value][1..] == [];
    if value.List? {
      ItemsError(value.items);
    } else if value.Map? {
      EntriesError(value.entries);
    }
  }

  lemma {:induction false} ItemsError(items: seq<Yaml>)
    ensures ErrorOf(NormaliseItems(items)) == FirstError(NodesOfItems(items))
    decreases items, 0
  {
    if items != [] {
      NormaliseError(items[0]);
      ItemsError(items[1..]);
      FirstErrorConcat(Nodes(items[0]), NodesOfItems(items[1..]));
    }
  }

  lemma {:induction false} EntriesError(entries: seq<Entry>)
    ensures ErrorOf(NormaliseEntries(entries)) == FirstError(NodesOfEntries(entries))
    decreases entries, 0
  {
    if entries != [] {
      EntryError(entries[0]);
      EntriesError(entries[1..]);
      FirstErrorConcat(NodesOfEntry(entries[0]), NodesOfEntries(entries[1..]));
    }
  }

  lemma {:induction false} EntryError(entry: Entry)
    ensures ErrorOf(NormaliseEntry(entry)) == FirstError(NodesOfEntry(entry))
    decreases entry, 0
  {
    NormaliseError(entry.value);
  }

  // ---------------------------------------------------------------- shape and normal form

  /** The result has the input's shape and keys, and at every path the normal form of what the input holds there. */
  lemma {:induction false} NormaliseAt(value: Yaml, path: seq<nat>)
    requires Normalise(value).Success?
    ensures At(Normalise(value).value, path).Some? <==> At(value, path).Some?
    ensures At(value, path).Some? ==>
              Normalise(At(value, path).value) == Success(At(Normalise(value).value, path).value)
    ensures At(value, path).Some? ==> SameKeys(At(value, path).value, At(Normalise(value).value, path).value)
    decreases |path|
  {
    if path == [] {
      KeysKept(value);
    } else {
      if value.List? {
        ItemsPointwise(value.items);
        if path[0] < |value.items| {
          NormaliseAt(value.items[path[0]], path[1..]);
        }
      } else if value.Map? {
        EntriesPointwise(value.entries);
        if path[0] < |value.entries| {
          NormaliseAt(value.entries[path[0]].value, path[1..]);
        }
      }
    }
  }

  lemma {:induction false} FindOffending(value: Yaml) returns (path: seq<nat>)
    requires Normalise(value).Failure?
    ensures OffendingAt(value, path)
    decreases value
  {
    path := [];
    if value.List? {
      ItemsPointwise(value.items);
      var i :| 0 <= i < |value.items| && Normalise(value.items[i]).Failure?;
      var rest := FindOffending(value.items[i]);
      path := [i] + rest;
    } else if value.Map? && StringKeys(value.entries) {
      EntriesPointwise(value.entries);
      var i :| 0 <= i < |value.entries| && Normalise(value.entries[i].value).Failure?;
      path := OffendingInEntry(value, value.entries[i], i);
    }
  }

  lemma {:induction false} OffendingInEntry(value: Yaml, entry: Entry, i: nat) returns (path: seq<nat>)
    requires value.Map? && i < |value.entries| && value.entries[i] == entry
    requires Normalise(entry.value).Failure?
    ensures OffendingAt(value, path)
    decreases entry
  {
    var rest := FindOffending(entry.value);
    path := [i] + rest;
  }

  /** Normalising fails exactly when some node of the tree is of an unknown type or has a key that is not a string. */
  lemma NormaliseFailsIff(value: Yaml)
    ensures Normalise(value).Failure? <==> exists path: seq<nat> :: OffendingAt(value, path)
  {
    if Normalise(value).Failure? {
      var path := FindOffending(value);
    } else {
      forall path: seq<nat>
        ensures !OffendingAt(value, path)
      {
        NormaliseAt(value, path);
      }
    }
  }

  lemma NormaliseNode(value: Yaml)
    requires Normalise(value).Success?
    ensures SettledNode(Normalise(value).value)
    ensures Normalise(value).value.NonFinite? <==> value.NonFinite?
    ensures NulFreeNode(Normalise(value).value) <==> NulFreeNode(value)
  {
    KeysKept(value);
    if value.Map? {
      EntriesPointwise(value.entries);
      var entries := Normalise(value).value.entries;
      assert forall i :: 0 <= i < |entries| ==> entries[i].key == value.entries[i].key;
    }
  }

  /** A successful result has no date, no unknown type and only string keys, at every path. */
  lemma NormaliseSettles(value: Yaml)
    requires Normalise(value).Success?
    ensures SettledTree(Normalise(value).value)
  {
    forall path: seq<nat> | At(Normalise(value).value, path).Some?
      ensures SettledNode(At(Normalise(value).value, path).value)
    {
      NormaliseAt(value, path);
      NormaliseNode(At(value, path).value);
    }
  }

  lemma NormaliseKeepsNumbers(value: Yaml)
    requires Normalise(value).Success?
    ensures Finite(Normalise(value).value) <==> Finite(value)
    ensures NulFreeTree(Normalise(value).value) <==> NulFreeTree(value)
  {
    var normal := Normalise(value).value;
    forall path: seq<nat>
      ensures At(normal, path).Some? <==> At(value, path).Some?
      ensures At(value, path).Some? ==>
                && (At(normal, path).value.NonFinite? <==> At(value, path).value.NonFinite?)
                && (NulFreeNode(At(normal, path).value) <==> NulFreeNode(At(value, path).value))
    {
      NormaliseAt(value, path);
      if At(value, path).Some? {
        NormaliseNode(At(value, path).value);
      }
    }
  }

  lemma JsonIsSettledAndFinite(value: Yaml)
    ensures JsonTree(value) <==> SettledTree(value) && Finite(value)
  {
    if JsonTree(value) {
      assert forall path: seq<nat> :: At(value, path).Some? ==> JsonNode(At(value, path).value);
    }
  }

  /** A successful result is JSON exactly when no number of the input is nan or an infinity: those pass through. */
  lemma NormaliseYieldsJsonIff(value: Yaml)
    requires Normalise(value).Success?
    ensures JsonTree(Normalise(value).value) <==> Finite(value)
  {
    NormaliseSettles(value);
    NormaliseKeepsNumbers(value);
    JsonIsSettledAndFinite(Normalise(value).value);
  }

  lemma SettledChild(value: Yaml, i: nat, child: Yaml)
    requires SettledTree(value)
    requires At(value, [i]) == Some(child)
    ensures SettledTree(child)
  {
    forall path: seq<nat> | At(child, path).Some?
      ensures SettledNode(At(child, path).value)
    {
      assert ([i] + path)[1..] == path;
      assert At(value, [i] + path) == At(child, path);
    }
  }

  lemma {:induction false} SettledUnchanged(value: Yaml)
    requires SettledTree(value)
    ensures Normalise(value) == Success(value)
    decreases value
  {
    assert SettledNode(At(value, []).value);
    if value.List? {
      forall i | 0 <= i < |value.items|
        ensures Normalise(value.items[i]) == Success(value.items[i])
      {
        SettledChild(value, i, value.items[i]);
        SettledUnchanged(value.items[i]);
      }
      ItemsPointwise(value.items);
      assert NormaliseItems(value.items).value == value.items;
    } else if value.Map? {
      forall i | 0 <= i < |value.entries|
        ensures Normalise(value.entries[i].value) == Success(value.entries[i].value)
      {
        SettledChild(value, i, value.entries[i].value);
        SettledEntryUnchanged(value.entries[i]);
      }
      EntriesPointwise(value.entries);
      assert NormaliseEntries(value.entries).value == value.entries;
    }
  }

  lemma {:induction false} SettledEntryUnchanged(entry: Entry)
    requires SettledTree(entry.value)
    ensures Normalise(entry.value) == Success(entry.value)
    decreases entry
  {
    SettledUnchanged(entry.value);
  }

  /** The trees the normaliser leaves alone are exactly the settled ones; the JSON trees are the finite of these. */
  lemma NormaliseIdentityIff(value: Yaml)
    ensures Normalise(value) == Success(value) <==> SettledTree(value)
    ensures JsonTree(value) <==> Normalise(value) == Success(value) && Finite(value)
  {
    JsonIsSettledAndFinite(value);
    if SettledTree(value) {
      SettledUnchanged(value);
    } else if Normalise(value).Success? {
      NormaliseSettles(value);
    }
  }

  lemma NormaliseIdempotent(value: Yaml)
    requires Normalise(value).Success?
    ensures Normalise(Normalise(value).value) == Normalise(value)
  {
    NormaliseSettles(value);
    SettledUnchanged(Normalise(value).value);
  }

  // ---------------------------------------------------------------- what a JSONB column takes

  lemma {:induction false} StorableAt(value: Yaml, path: seq<nat>)
    requires Storable(value) && At(value, path).Some?
    ensures Storable(At(value, path).value)
    decreases |path|
  {
    if path != [] {
      if value.List? {
        StorableAt(value.items[path[0]], path[1..]);
      } else {
        assert StorableEntry(value.entries[path[0]]);
        StorableAt(value.entries[path[0]].value, path[1..]);
      }
    }
  }

  lemma StorableNode(value: Yaml)
    requires Storable(value)
    ensures JsonNode(value) && NulFreeNode(value)
  {
    if value.Map? {
      assert forall i :: 0 <= i < |value.entries| ==> StorableEntry(value.entries[i]);
    }
  }

  lemma FitChild(value: Yaml, i: nat, child: Yaml)
    requires JsonTree(value) && NulFreeTree(value)
    requires At(value, [i]) == Some(child)
    ensures JsonTree(child) && NulFreeTree(child)
  {
    forall path: seq<nat> | At(child, path).Some?
      ensures JsonNode(At(child, path).value) && NulFreeNode(At(child, path).value)
    {
      assert ([i] + path)[1..] == path;
      assert At(value, [i] + path) == At(child, path);
    }
  }

  lemma {:induction false} FitIsStorable(value: Yaml)
    requires JsonTree(value) && NulFreeTree(value)
    ensures Storable(value)
    decreases value
  {
    assert JsonNode(At(value, []).value) && NulFreeNode(At(value, []).value);
    if value.List? {
      forall i | 0 <= i < |value.items|
        ensures Storable(value.items[i])
      {
        FitChild(value, i, value.items[i]);
        FitIsStorable(value.items[i]);
      }
    } else if value.Map? {
      forall i | 0 <= i < |value.entries|
        ensures StorableEntry(value.entries[i])
      {
        FitChild(value, i, value.entries[i].value);
        FitEntryIsStorable(value.entries[i]);
      }
    }
  }

  lemma {:induction false} FitEntryIsStorable(entry: Entry)
    requires entry.key.Str? && NulFree(entry.key.s) && JsonTree(entry.value) && NulFreeTree(entry.value)
    ensures StorableEntry(entry)
    decreases entry
  {
    FitIsStorable(entry.value);
  }

  /** A column takes exactly the JSON trees without NUL in a string or a key. */
  lemma StorableIff(value: Yaml)
    ensures Storable(value) <==> JsonTree(value) && NulFreeTree(value)
  {
    if Storable(value) {
      forall path: seq<nat> | At(value, path).Some?
        ensures JsonNode(At(value, path).value) && NulFreeNode(At(value, path).value)
      {
        StorableAt(value, path);
        StorableNode(At(value, path).value);
      }
    } else if JsonTree(value) && NulFreeTree(value) {
      FitIsStorable(value);
    }
  }

  /** What the normaliser makes of a value can be stored exactly when the value is finite and free of NUL. */
  lemma NormaliseStorableIff(value: Yaml)
    requires Normalise(value).Success?
    ensures Storable(Normalise(value).value) <==> Finite(value) && NulFreeTree(value)
  {
    NormaliseYieldsJsonIff(value);
    NormaliseKeepsNumbers(value);
    StorableIff(Normalise(value).value);
  }

  // ---------------------------------------------------------------- the whole split

  datatype Document = Document(metadata: Yaml, body: string)

  /** split_frontmatter, over any YAML loader. */
  function SplitFrontmatter(raw: string, load: string -> Result<Yaml, string>): Result<Document, FrontmatterError> {
    var parts := Match(raw);
    if parts.None? then Success(Document(Map([]), raw))
    else
      var loaded := load(parts.value.block);
      if loaded.Failure? then Failure(InvalidYaml(loaded.error))
      else
        var metadata := if loaded.value.Null? then Map([]) else loaded.value;
        if !metadata.Map? then Failure(NotAMapping)
        else
          var normal := Normalise(metadata);
          if normal.Failure? then Failure(normal.error)
          else Success(Document(normal.value, parts.value.body))
  }

  /** The value that becomes the metadata of an upload: an absent or null block is an empty mapping. */
  function Loaded(raw: string, load: string -> Result<Yaml, string>): Result<Yaml, string> {
    var parts := Match(raw);
    if parts.None? then Success(Map([]))
    else
      var loaded := load(parts.value.block);
      if loaded.Success? && loaded.value.Null? then Success(Map([])) else loaded
  }

  /** The document is the block and the body, joined with or without the newline that may be skipped. */
  ghost predicate Carries(raw: string, block: string, body: string) {
    && !HasDelimiter(block)
    && (raw == Join(block, body) || (raw == JoinTight(block, body) && !StartsWith(body, "\n")))
  }

  /** Every document has no block or is one block and one body, and never both. */
  lemma EveryDocument(raw: string)
    ensures HasBlock(raw) <==> exists block, body :: Carries(raw, block, body)
    ensures forall b1, c1, b2, c2 :: Carries(raw, b1, c1) && Carries(raw, b2, c2) ==> b1 == b2 && c1 == c2
  {
    NoMatchIff(raw);
    if Match(raw).Some? {
      MatchIff(raw, Match(raw).value.block, Match(raw).value.body);
      assert Carries(raw, Match(raw).value.block, Match(raw).value.body);
    }
    forall block, body | Carries(raw, block, body)
      ensures Match(raw) == Some(Parts(block, body))
    {
      MatchIff(raw, block, body);
    }
  }

  /** A document without a block is all body. */
  lemma SplitWithoutBlock(raw: string, load: string -> Result<Yaml, string>)
    requires !HasBlock(raw)
    ensures SplitFrontmatter(raw, load) == Success(Document(Map([]), raw))
  {
    NoMatchIff(raw);
  }

  /**
   A document with a block succeeds exactly when the block loads to null or to a mapping in
   which every node can be represented.  Its body is then the body, and its metadata the
   loaded mapping with dates as text.  Each way to fail has its own error.
   */
  lemma SplitWithBlock(raw: string, block: string, body: string, load: string -> Result<Yaml, string>)
    requires Carries(raw, block, body)
    ensures var split, loaded := SplitFrontmatter(raw, load), load(block);
            && (split.Success? <==> && loaded.Success?
                                    && (loaded.value.Null?
                                        || (loaded.value.Map? && !exists path :: OffendingAt(loaded.value, path))))
            && (split.Success? ==>
                  && split.value.body == body
                  && if loaded.value.Null? then split.value.metadata == Map([])
                     else Isoformatted(loaded.value, split.value.metadata))
            && (split.Failure? ==>
                  if loaded.Failure? then split.error == InvalidYaml(loaded.error)
                  else if !loaded.value.Map? then split.error == NotAMapping
                  else FirstError(Nodes(loaded.value)) == Some(split.error))
  {
    MatchIff(raw, block, body);
    if load(block).Success? && load(block).value.Map? {
      var value := load(block).value;
      NormaliseFailsIff(value);
      NormaliseError(value);
      if Normalise(value).Success? {
        NormaliseIsoformats(value);
      }
    }
  }

  /** The body of a document: what follows its block, or all of it when it has none. */
  ghost predicate IsBodyOf(body: string, raw: string) {
    if HasBlock(raw) then exists block :: Carries(raw, block, body) else body == raw
  }

  lemma SplitBody(raw: string, load: string -> Result<Yaml, string>)
    requires SplitFrontmatter(raw, load).Success?
    ensures IsBodyOf(SplitFrontmatter(raw, load).value.body, raw)
  {
    NoMatchIff(raw);
    if Match(raw).Some? {
      MatchIff(raw, Match(raw).value.block, Match(raw).value.body);
      assert Carries(raw, Match(raw).value.block, Match(raw).value.body);
    }
  }

  /**
   Metadata is always a mapping without dates, unknown types and other keys than strings.
   It is JSON exactly when every number the loader gave is finite, and can be stored exactly
   when there is no NUL in its text either.
   */
  lemma SplitFrontmatterSound(raw: string, load: string -> Result<Yaml, string>)
    requires SplitFrontmatter(raw, load).Success?
    ensures var metadata := SplitFrontmatter(raw, load).value.metadata;
            && Loaded(raw, load).Success?
            && metadata.Map? && SettledTree(metadata)
            && (JsonTree(metadata) <==> Finite(Loaded(raw, load).value))
            && (Storable(metadata) <==> Finite(Loaded(raw, load).value) && NulFreeTree(Loaded(raw, load).value))
  {
    var loaded := Loaded(raw, load).value;
    NormaliseSettles(loaded);
    NormaliseYieldsJsonIff(loaded);
    NormaliseStorableIff(loaded);
  }

  /** What is settled under a block is what comes back, for every loader. */
  lemma SplitFrontmatterRoundTrip(block: string, body: string, load: string -> Result<Yaml, string>)
    requires !HasDelimiter(block)
    requires load(block).Success? && load(block).value.Map? && SettledTree(load(block).value)
    ensures SplitFrontmatter(Join(block, body), load) == Success(Document(load(block).value, body))
  {
    SplitJoin(block, body);
    SettledUnchanged(load(block).value);
  }

  /** A block that holds .nan, which the loader reads as a float, splits into metadata that is not JSON. */
  lemma NanPassesThrough(body: string, load: string -> Result<Yaml, string>)
    requires load("x: .nan") == Success(Map([Entry(Str("x"), NonFinite("nan"))]))
    ensures SplitFrontmatter(Join("x: .nan", body), load) == Success(Document(load("x: .nan").value, body))
    ensures !JsonTree(load("x: .nan").value) && !Storable(load("x: .nan").value)
  {
    var value, entry := load("x: .nan").value, Entry(Str("x"), NonFinite("nan"));
    NoBreakNoDelimiter("x: .nan");
    SplitJoin("x: .nan", body);
    NormaliseSingle(entry);
    assert At(entry.value, []) == Some(NonFinite("nan"));
    assert At(value, [0]) == At(entry.value, [0][1..]);
    StorableIff(value);
  }

  lemma NoBreakNoDelimiter(block: string)
    requires '\n' !in block
    ensures !HasDelimiter(block)
  {
    forall k: nat
      ensures !DelimiterAt(block, k)
    {
      if k + |DELIMITER| <= |block| {
        assert block[k..k + |DELIMITER|][0] == block[k];
      }
    }
  }

  lemma NormaliseSingle(entry: Entry)
    requires entry.key.Str? && Normalise(entry.value) == Success(entry.value)
    ensures Normalise(Map([entry])) == Success(Map([entry]))
  {
    EntriesPointwise([entry]);
    assert NormaliseEntries([entry]).value == [entry];
  }
}
