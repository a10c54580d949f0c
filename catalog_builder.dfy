/**
 * Building the catalog from the parsed configuration (src/index.js:51-92):
 * the declared entries are walked in order, invalid ones are skipped with a
 * warning, valid ones become advertised tools, and their usage text and
 * underlying command go into two name-keyed tables.
 *
 * Build is the specification, one loop iteration (Step) at a time;
 * BuildCatalog is the loop itself; the lemmas say what Build produces in
 * terms of the entries alone.
 */
module CatalogBuilder {
  import opened Wrappers
  import opened Text
  import opened Json
  import opened Tables

  /**
   * The suffix appended to every description (src/index.js:72). The source
   * file holds the three characters U+00E2 U+20AC U+201D, the UTF-8 bytes of
   * an em dash read back as Windows-1252; they are kept as written.
   */
  const Hint: string := " [CLI tool \U{E2}\U{20AC}\U{201D} pre-installed in PATH; only exists in terminal shell]"

  /** `{ type: "object", properties: {}, additionalProperties: false }`: the tool takes no arguments. */
  const NoArgumentsSchema: Value :=
    JObject(map["type" := JString("object"), "properties" := JObject(map[]), "additionalProperties" := JBool(false)])

  /** An advertised tool, as the tools/list reply carries it. */
  datatype Tool = Tool(name: Value, description: string, inputSchema: Value)

  /**
   * What the loop leaves behind: the validated tools in order, the usage and
   * command tables (JavaScript Maps keyed by the raw `name`), and the entries
   * that were skipped, each reported by one warning.
   */
  datatype Catalog = Catalog(tools: seq<Tool>, usage: map<Value, string>, commands: map<Value, string>, skipped: seq<Value>)

  /** The two optional string fields that feed a table. */
  datatype Field = Usage | Command

  function FieldKey(f: Field): string
  {
    match f
    case Usage => "usage"
    case Command => "command"
  }

  function Table(c: Catalog, f: Field): map<Value, string>
  {
    match f
    case Usage => c.usage
    case Command => c.commands
  }

  /** `Array.isArray(doc?.tools) ? doc.tools : []`. */
  function DeclaredTools(doc: Value): seq<Value>
  {
    match Member(doc, "tools")
    case Some(JArray(items)) => items
    case _ => []
  }

  /** An entry is kept when its `name` is truthy and its trimmed string `description` is non-empty. */
  predicate IsValidEntry(entry: Value)
  {
    IsTruthyMember(entry, "name") && StringMember(entry, "description") != ""
  }

  /** The advertised form of a valid entry: its raw name, its description with the hint, no arguments. */
  function ToolOf(entry: Value): (t: Tool)
    requires IsValidEntry(entry)
  {
    Tool(Member(entry, "name").value, StringMember(entry, "description") + Hint, NoArgumentsSchema)
  }

  /**
   * What a valid entry writes into table f (src/index.js:75-81): its raw
   * name and its trimmed string value, when that value is non-empty.
   */
  function Write(entry: Value, f: Field): Option<(Value, string)>
  {
    if IsValidEntry(entry) && StringMember(entry, FieldKey(f)) != "" then
      Some((Member(entry, "name").value, StringMember(entry, FieldKey(f))))
    else
      None
  }

  /** A valid entry named `name` that declares a non-empty value for field f. */
  predicate Declares(entry: Value, f: Field, name: Value)
  {
    WritesKey(Write(entry, f), name)
  }

  /** The writes into table f, one per entry, in input order. */
  function Writes(entries: seq<Value>, f: Field): seq<Option<(Value, string)>>
  {
    seq(|entries|, i requires 0 <= i < |entries| => Write(entries[i], f))
  }

  const EmptyCatalog: Catalog := Catalog([], map[], map[], [])

  /** One iteration of the loop at src/index.js:60-88. */
  function Step(c: Catalog, entry: Value): Catalog
  {
    if IsValidEntry(entry) then
      Catalog(c.tools + [ToolOf(entry)],
              Put(c.usage, Write(entry, Usage)),
              Put(c.commands, Write(entry, Command)),
              c.skipped)
    else
      c.(skipped := c.skipped + [entry])
  }

  /** The catalog after the loop has run over all of entries. */
  function Build(entries: seq<Value>): Catalog
    decreases |entries|
  {
    if entries == [] then EmptyCatalog
    else Step(Build(entries[..|entries| - 1]), entries[|entries| - 1])
  }

  /** The reference definition of the tool list: the valid entries, in input order, as tools. */
  function Selected(entries: seq<Value>): seq<Tool>
  {
    if entries == [] then []
    else (if IsValidEntry(entries[0]) then [ToolOf(entries[0])] else []) + Selected(entries[1..])
  }

  /** The reference definition of the warnings: the invalid entries, in input order. */
  function Rejected(entries: seq<Value>): seq<Value>
  {
    if entries == [] then []
    else (if IsValidEntry(entries[0]) then [] else [entries[0]]) + Rejected(entries[1..])
  }

  /**
   * The build loop. `validTools`, `toolUsage`, `toolCommands` and the
   * warnings are updated in place, entry by entry; the result is Build.
   */
  method BuildCatalog(entries: seq<Value>) returns (c: Catalog)
    ensures c == Build(entries)
    ensures c.tools == Selected(entries) && c.skipped == Rejected(entries)
  {
    var validTools: seq<Tool> := [];
    var toolUsage: map<Value, string> := map[];
    var toolCommands: map<Value, string> := map[];
    var skipped: seq<Value> := [];
    for i := 0 to |entries|
      invariant Catalog(validTools, toolUsage, toolCommands, skipped) == Build(entries[..i])
    {
      BuildSnoc(entries, i);
      ghost var before := Catalog(validTools, toolUsage, toolCommands, skipped);
      var tool := entries[i];
      var name := Member(tool, "name");
      var desc := StringMember(tool, "description");
      var usage := StringMember(tool, "usage");
      var command := StringMember(tool, "command");
      if name.None? || !IsTruthy(name.value) || desc == "" {
        skipped := skipped + [tool];
        continue;
      }
      StepAccepts(before, tool);
      var fullDescription := desc + Hint;
      if usage != "" {
        toolUsage := toolUsage[name.value := usage];
      }
      if command != "" {
        toolCommands := toolCommands[name.value := command];
      }
      validTools := validTools + [Tool(name.value, fullDescription, NoArgumentsSchema)];
    }
    assert entries[..|entries|] == entries;
    c := Catalog(validTools, toolUsage, toolCommands, skipped);
    BuildFiltersEntries(entries);
  }

  /** A Step over a valid entry appends its tool and sets its non-empty usage and command. */
  lemma StepAccepts(c: Catalog, entry: Value)
    requires IsValidEntry(entry)
    ensures var name := Member(entry, "name").value;
      var usage := StringMember(entry, "usage");
      var command := StringMember(entry, "command");
      Step(c, entry) == Catalog(
        c.tools + [Tool(name, StringMember(entry, "description") + Hint, NoArgumentsSchema)],
        if usage != "" then c.usage[name := usage] else c.usage,
        if command != "" then c.commands[name := command] else c.commands,
        c.skipped)
  {
  }

  /** Build over one more entry is one more Step. */
  lemma BuildSnoc(entries: seq<Value>, i: nat)
    requires i < |entries|
    ensures Build(entries[..i + 1]) == Step(Build(entries[..i]), entries[i])
  {
    assert entries[..i + 1][..i] == entries[..i];
  }

  lemma {:induction false} SelectedAppend(a: seq<Value>, b: seq<Value>)
    ensures Selected(a + b) == Selected(a) + Selected(b)
    ensures Rejected(a + b) == Rejected(a) + Rejected(b)
  {
    if a != [] {
      assert (a + b)[0] == a[0];
      assert (a + b)[1..] == a[1..] + b;
      SelectedAppend(a[1..], b);
    } else {
      assert a + b == b;
    }
  }

  /**
   * The tools Build advertises are exactly the valid entries in input order,
   * and the warnings exactly the invalid ones in input order.
   */
  lemma {:induction false} BuildFiltersEntries(entries: seq<Value>)
    ensures Build(entries).tools == Selected(entries)
    ensures Build(entries).skipped == Rejected(entries)
    decreases |entries|
  {
    if entries != [] {
      var init, last := entries[..|entries| - 1], entries[|entries| - 1];
      assert entries == init + [last];
      BuildFiltersEntries(init);
      SelectedAppend(init, [last]);
    }
  }

  /** Every entry is either advertised or warned about, never both: one warning per skipped entry. */
  lemma {:induction false} SelectedCount(entries: seq<Value>)
    ensures |Selected(entries)| + |Rejected(entries)| == |entries|
  {
    if entries != [] {
      SelectedCount(entries[1..]);
    }
  }

  /** A tool is advertised exactly when some valid entry produces it. */
  lemma {:induction false} SelectedMembers(entries: seq<Value>, t: Tool)
    ensures t in Selected(entries) <==> exists i :: 0 <= i < |entries| && IsValidEntry(entries[i]) && ToolOf(entries[i]) == t
  {
    if entries != [] {
      SelectedMembers(entries[1..], t);
      if t in Selected(entries[1..]) {
        var i :| 0 <= i < |entries[1..]| && IsValidEntry(entries[1..][i]) && ToolOf(entries[1..][i]) == t;
        assert entries[i + 1] == entries[1..][i];
      }
      if exists i :: 0 <= i < |entries| && IsValidEntry(entries[i]) && ToolOf(entries[i]) == t {
        var i :| 0 <= i < |entries| && IsValidEntry(entries[i]) && ToolOf(entries[i]) == t;
        if i > 0 {
          assert entries[1..][i - 1] == entries[i];
        }
      }
    }
  }

  /** Nothing is advertised exactly when no entry is valid. */
  lemma {:induction false} SelectedEmpty(entries: seq<Value>)
    ensures Selected(entries) == [] <==> forall i :: 0 <= i < |entries| ==> !IsValidEntry(entries[i])
  {
    if entries != [] {
      SelectedEmpty(entries[1..]);
      if Selected(entries) == [] {
        forall i | 0 <= i < |entries| ensures !IsValidEntry(entries[i]) {
          if i > 0 { assert entries[i] == entries[1..][i - 1]; }
        }
      }
    }
  }

  /** Each table of Build is the Map filled by the entries' writes, in order. */
  lemma {:induction false} BuildTables(entries: seq<Value>, f: Field)
    ensures Table(Build(entries), f) == PutAll(Writes(entries, f))
    decreases |entries|
  {
    if entries != [] {
      var init := entries[..|entries| - 1];
      BuildTables(init, f);
      assert Writes(entries, f)[..|entries| - 1] == Writes(init, f);
    }
  }

  /** A table holds a key exactly when some valid entry of that name declares a non-empty value. */
  lemma TableKeys(entries: seq<Value>, f: Field, name: Value)
    ensures name in Table(Build(entries), f) <==> exists i :: 0 <= i < |entries| && Declares(entries[i], f, name)
  {
    BuildTables(entries, f);
    var ws := Writes(entries, f);
    assert |ws| == |entries|;
    forall i | 0 <= i < |entries| ensures WritesKey(ws[i], name) == Declares(entries[i], f, name) {
      assert ws[i] == Write(entries[i], f);
    }
    PutAllKeys(ws, name);
  }

  /**
   * With duplicate names, the last valid entry that declares a non-empty
   * value wins; later entries of that name that declare nothing leave it in place.
   */
  lemma TableLastWins(entries: seq<Value>, f: Field, name: Value, i: nat)
    requires i < |entries| && Declares(entries[i], f, name)
    requires forall j :: i < j < |entries| ==> !Declares(entries[j], f, name)
    ensures name in Table(Build(entries), f)
    ensures Table(Build(entries), f)[name] == StringMember(entries[i], FieldKey(f))
  {
    var ws := Writes(entries, f);
    BuildTables(entries, f);
    assert forall j :: i < j < |ws| ==> !WritesKey(ws[j], name) by {
      forall j | i < j < |ws| ensures !WritesKey(ws[j], name) {
        assert ws[j] == Write(entries[j], f);
      }
    }
    DeclaresWrite(entries[i], f, name);
    assert ws[i] == Some((name, StringMember(entries[i], FieldKey(f))));
    PutAllLastWins(ws, name, i);
  }

  lemma DeclaresWrite(entry: Value, f: Field, name: Value)
    requires Declares(entry, f, name)
    ensures Write(entry, f) == Some((name, StringMember(entry, FieldKey(f))))
  {
  }

  /**
   * What every advertised tool looks like: a truthy name, a description made
   * of a non-empty trimmed text followed by the hint, and no arguments.
   */
  ghost predicate IsAdvertised(t: Tool)
  {
    && IsTruthy(t.name)
    && (exists d :: d != "" && IsTrimmed(d) && t.description == d + Hint)
    && t.inputSchema == NoArgumentsSchema
  }

  /** Table values are non-empty trimmed strings, stored under names of advertised tools. */
  predicate TableWellFormed(table: map<Value, string>, tools: seq<Tool>)
  {
    forall k :: k in table ==> table[k] != "" && IsTrimmed(table[k]) && exists t :: t in tools && t.name == k
  }

  /** The catalog's invariant. */
  ghost predicate WellFormed(c: Catalog)
  {
    && (forall t :: t in c.tools ==> IsAdvertised(t))
    && TableWellFormed(c.usage, c.tools)
    && TableWellFormed(c.commands, c.tools)
  }

  lemma ToolOfAdvertised(entry: Value)
    requires IsValidEntry(entry)
    ensures IsAdvertised(ToolOf(entry))
  {
    var d := StringMember(entry, "description");
    StringMemberSpec(entry, "description");
    assert ToolOf(entry).description == d + Hint;
  }

  lemma BuildTableWellFormed(entries: seq<Value>, f: Field)
    ensures TableWellFormed(Table(Build(entries), f), Build(entries).tools)
  {
    var c := Build(entries);
    BuildTables(entries, f);
    BuildFiltersEntries(entries);
    forall k | k in Table(c, f)
      ensures Table(c, f)[k] != "" && IsTrimmed(Table(c, f)[k]) && exists t :: t in c.tools && t.name == k
    {
      var ws := Writes(entries, f);
      PutAllValues(ws, k);
      var i :| 0 <= i < |ws| && WritesKey(ws[i], k) && ws[i].value.1 == PutAll(ws)[k];
      assert Write(entries[i], f) == ws[i];
      StringMemberSpec(entries[i], FieldKey(f));
      SelectedMembers(entries, ToolOf(entries[i]));
    }
  }

  /**
   * Every advertised tool has a truthy name and a description carrying the
   * hint; table keys are names of advertised tools and stored values are
   * never empty.
   */
  lemma BuildWellFormed(entries: seq<Value>)
    ensures WellFormed(Build(entries))
  {
    BuildFiltersEntries(entries);
    forall t | t in Build(entries).tools ensures IsAdvertised(t) {
      SelectedMembers(entries, t);
      var i :| 0 <= i < |entries| && IsValidEntry(entries[i]) && ToolOf(entries[i]) == t;
      ToolOfAdvertised(entries[i]);
    }
    BuildTableWellFormed(entries, Usage);
    BuildTableWellFormed(entries, Command);
  }
}
