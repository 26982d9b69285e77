/** The model catalog at run time and its resolver; and what the configuration rewrite
    must preserve: the model every unnamed job is sent to. */
module Catalogs {
  import opened Basics
  import opened Configs

  const MIN_AGENT_CONTEXT_WINDOW: real := 16384.0

  datatype Server = Server(baseUrl: string, apiKey: Option<string>)

  /** `caption` is the program's `label`. */
  datatype Model = Model(id: string, caption: Option<string>, contextWindow: Option<real>, server: Option<Server>)

  /** The parts of a parsed configuration the catalog is built from. */
  datatype Config = Config(models: seq<Model>, defaultServer: Option<Server>, recon: Option<string>, write: Option<string>)

  datatype Catalog = Catalog(entries: map<string, Model>, recon: Option<string>, write: Option<string>)

  datatype JobType = Recon | Write | Command

  datatype Resolution =
    | Fine                     // the job type needs no model
    | Use(baseUrl: string, apiKey: Option<string>, model: string, contextWindow: real)
    | NoModelSpecified
    | ModelNotOffered(model: string)
    | NoEndpoint(model: string)
    | WindowTooSmall(model: string)

  // ---- Building and resolving ----------------------------------------------

  /** A model without its own endpoint is served from the default one. */
  function Served(m: Model, default: Option<Server>): Model {
    if m.server.Some? then m else m.(server := default)
  }

  function Entries(models: seq<Model>, default: Option<Server>): map<string, Model> {
    if models == [] then map[] else Entries(Init(models), default)[Last(models).id := Served(Last(models), default)]
  }

  /** Where several models share an id, which the schema refuses, the last one stands. */
  method BuildCatalog(config: Config) returns (c: Catalog)
    ensures c == Catalog(Entries(config.models, config.defaultServer), config.recon, config.write)
    ensures forall id :: id in c.entries <==> exists i :: 0 <= i < |config.models| && config.models[i].id == id
    ensures UniqueIds(config) ==> forall i :: 0 <= i < |config.models| ==>
      config.models[i].id in c.entries && c.entries[config.models[i].id] == Served(config.models[i], config.defaultServer)
  {
    var entries: map<string, Model> := map[];
    for i := 0 to |config.models|
      invariant entries == Entries(config.models[..i], config.defaultServer)
    {
      assert Init(config.models[..i + 1]) == config.models[..i];
      entries := entries[config.models[i].id := Served(config.models[i], config.defaultServer)];
    }
    assert config.models[..|config.models|] == config.models;
    EntriesAre(config.models, config.defaultServer);
    if UniqueIds(config) {
      forall i | 0 <= i < |config.models|
        ensures config.models[i].id in entries && entries[config.models[i].id] == Served(config.models[i], config.defaultServer)
      {
        EntriesHas(config.models, config.defaultServer, i);
      }
    }
    return Catalog(entries, config.recon, config.write);
  }

  /** The one entry of a catalog that has only one. */
  function Sole(entries: map<string, Model>): Option<string> {
    if |entries| == 1 then
      SingletonHasOne(entries.Keys);
      var id :| id in entries;
      Some(id)
    else None
  }

  lemma SingletonHasOne(ids: set<string>)
    requires |ids| == 1
    ensures exists id :: id in ids
    ensures forall a, b :: a in ids && b in ids ==> a == b
  {
    var x :| x in ids;
    forall y | y in ids
      ensures y == x
    {
      SubsetSize({x, y}, ids);
    }
  }

  function Chosen(c: Catalog, job: JobType, requested: Option<string>): Option<string> {
    var default := if job.Recon? then c.recon else c.write;
    if requested.Some? then requested else if default.Some? then default else Sole(c.entries)
  }

  function Resolve(c: Catalog, job: JobType, requested: Option<string>): Resolution {
    if job.Command? then Fine
    else
      match Chosen(c, job, requested)
      case None => NoModelSpecified
      case Some(id) =>
        if id !in c.entries then ModelNotOffered(id)
        else
          var e := c.entries[id];
          if e.server.None? then NoEndpoint(id)
          else if e.contextWindow.None? || e.contextWindow.value < MIN_AGENT_CONTEXT_WINDOW then WindowTooSmall(id)
          else Use(e.server.value.baseUrl, e.server.value.apiKey, id, e.contextWindow.value)
  }

  /** A job that needs a model is sent to the one it names, failing that to the default for
      its kind, failing that to the only one there is. */
  predicate Picks(c: Catalog, job: JobType, requested: Option<string>, id: string) {
    if requested.Some? then requested.value == id
    else if job.Recon? && c.recon.Some? then c.recon.value == id
    else if job.Write? && c.write.Some? then c.write.value == id
    else c.entries.Keys == {id}
  }

  /** Such a job is accepted exactly if the model picked is offered, has a server, and a
      window of at least 16384; it goes there with the entry's key and window. What is
      missing first is what is reported. A command needs no model. */
  lemma ResolveIs(c: Catalog, job: JobType, requested: Option<string>)
    ensures var r := Resolve(c, job, requested);
      if job.Command? then r.Fine?
      else if !exists id :: Picks(c, job, requested, id) then r.NoModelSpecified?
      else
        forall id :: Picks(c, job, requested, id) ==>
          if id !in c.entries then r == ModelNotOffered(id)
          else if c.entries[id].server.None? then r == NoEndpoint(id)
          else if c.entries[id].contextWindow.None? || c.entries[id].contextWindow.value < 16384.0 then r == WindowTooSmall(id)
          else
            var server := c.entries[id].server.value;
            r == Use(server.baseUrl, server.apiKey, id, c.entries[id].contextWindow.value)
  {
    SoleIs(c.entries);
    hide Sole;
    var chosen := Chosen(c, job, requested);
    if chosen.Some? && !job.Command? { assert Picks(c, job, requested, chosen.value); }
  }

  lemma SoleIs(entries: map<string, Model>)
    ensures forall id :: Sole(entries) == Some(id) <==> entries.Keys == {id}
  {
    forall id | entries.Keys == {id}
      ensures |entries| == 1
    {
      assert |entries.Keys| == 1;
    }
    if |entries| == 1 {
      SingletonHasOne(entries.Keys);
      assert entries.Keys == {Sole(entries).value};
      assert forall id :: entries.Keys == {id} ==> id in entries.Keys;
    }
  }

  lemma {:induction false} EntriesAre(models: seq<Model>, default: Option<Server>)
    ensures forall id :: id in Entries(models, default) <==> exists i :: 0 <= i < |models| && models[i].id == id
  {
    if models != [] {
      EntriesAre(Init(models), default);
      assert forall i :: 0 <= i < |models| - 1 ==> models[i] == Init(models)[i];
    }
  }

  lemma {:induction false} EntriesHas(models: seq<Model>, default: Option<Server>, i: nat)
    requires i < |models| && forall k, l :: 0 <= k < l < |models| ==> models[k].id != models[l].id
    ensures models[i].id in Entries(models, default) && Entries(models, default)[models[i].id] == Served(models[i], default)
  {
    if i < |models| - 1 {
      EntriesHas(Init(models), default, i);
    }
  }

  // ---- What the schema passes on -------------------------------------------

  /** An optional string: absent, a string, or refused. */
  function OptionalString(o: map<string, Json>, key: string): Option<Option<string>> {
    if key !in o then Some(None) else if o[key].Str? then Some(Some(o[key].s)) else None
  }

  function ParseServer(json: Json): Option<Server> {
    if !json.Obj? || StringAt(json.fields, "baseUrl").None? || OptionalString(json.fields, "apiKey").None? then None
    else Some(Server(json.fields["baseUrl"].s, OptionalString(json.fields, "apiKey").value))
  }

  function ParseModel(json: Json): Option<Model> {
    if !json.Obj? || StringAt(json.fields, "id").None? then None
    else if "contextWindow" in json.fields && !json.fields["contextWindow"].Num? then None
    else if "endpoint" in json.fields && ParseServer(json.fields["endpoint"]).None? then None
    else if OptionalString(json.fields, "label").None? then None
    else Some(Model(json.fields["id"].s, OptionalString(json.fields, "label").value, NumberAt(json.fields, "contextWindow"),
                    if "endpoint" in json.fields then ParseServer(json.fields["endpoint"]) else None))
  }

  function ParseModels(items: seq<Json>): Option<seq<Model>> {
    if items == [] then Some([])
    else
      var before, last := ParseModels(Init(items)), ParseModel(Last(items));
      if before.None? || last.None? then None else Some(before.value + [last.value])
  }

  function ParseCatalog(fields: map<string, Json>): Option<(seq<Model>, Option<Server>)> {
    if "catalog" !in fields then Some(([], None))
    else if !fields["catalog"].Obj? then None
    else
      var catalog := fields["catalog"].fields;
      var models := if "models" !in catalog then Some([])
                    else if catalog["models"].Arr? then ParseModels(catalog["models"].items) else None;
      var default := if "defaultEndpoint" in catalog then ParseServer(catalog["defaultEndpoint"]) else None;
      if models.None? || ("defaultEndpoint" in catalog && default.None?) then None else Some((models.value, default))
  }

  function ParseDefault(fields: map<string, Json>, kind: string): Option<Option<string>> {
    if "executors" !in fields then Some(None)
    else if !fields["executors"].Obj? then None
    else if kind !in fields["executors"].fields then Some(None)
    else if !fields["executors"].fields[kind].Obj? then None
    else OptionalString(fields["executors"].fields[kind].fields, "defaultModel")
  }

  /** What the configuration schema makes of a file, as far as the catalog is concerned:
      it may refuse more than this, and refuses duplicate ids. */
  function Parse(json: Json): Option<Config> {
    if !json.Obj? then None
    else
      var catalog, agent, write := ParseCatalog(json.fields), ParseDefault(json.fields, "agent"), ParseDefault(json.fields, "write");
      if catalog.None? || agent.None? || write.None? then None
      else Some(Config(catalog.value.0, catalog.value.1, agent.value, write.value))
  }

  predicate UniqueIds(config: Config) {
    forall i, j :: 0 <= i < j < |config.models| ==> config.models[i].id != config.models[j].id
  }

  // ---- The rewrite keeps the meaning ---------------------------------------

  /** What an old executor said: where to send its jobs. */
  datatype Legacy = Legacy(baseUrl: string, apiKey: Option<string>, model: string, contextWindow: real)

  function LegacyOf(executors: map<string, Json>, kind: string): Option<Legacy> {
    match Inline(executors, kind)
    case None => None
    case Some(ep) =>
      if StringAt(ep, "baseUrl").Some? && StringAt(ep, "model").Some? && NumberAt(ep, "contextWindow").Some?
      then Some(Legacy(ep["baseUrl"].s, StringAt(ep, "apiKey"), ep["model"].s, ep["contextWindow"].n))
      else None
  }

  /** Some entry serves the executor's model from its server, with its window or more. */
  predicate Serves(models: seq<Entry>, l: Legacy) {
    var i := FirstWith(models, Some(Str(l.model)));
    i < |models| && models[i].id == Some(Str(l.model)) &&
    models[i].endpoint == Some(Endpoint(Some(Str(l.baseUrl)), l.apiKey)) &&
    models[i].contextWindow.Some? && models[i].contextWindow.value >= l.contextWindow
  }

  lemma InlineEntryOf(executors: map<string, Json>, kind: string)
    requires LegacyOf(executors, kind).Some?
    ensures var l := LegacyOf(executors, kind).value;
      InlineEntry(Inline(executors, kind).value) ==
      Entry(Some(Str(l.model)), None, Some(l.contextWindow), Some(Endpoint(Some(Str(l.baseUrl)), l.apiKey)))
  {}

  lemma FirstWithAt(models: seq<Entry>, id: Option<Json>, i: nat)
    requires i < |models| && Same(models[i].id, id) && forall k :: 0 <= k < i ==> !Same(models[k].id, id)
    ensures FirstWith(models, id) == i
  {}

  lemma AddServes(models: seq<Entry>, l: Legacy)
    requires var e := Entry(Some(Str(l.model)), None, Some(l.contextWindow), Some(Endpoint(Some(Str(l.baseUrl)), l.apiKey)));
      !Clashes(models, e)
    ensures Serves(AddEntry(models, Entry(Some(Str(l.model)), None, Some(l.contextWindow), Some(Endpoint(Some(Str(l.baseUrl)), l.apiKey)))), l)
  {
    var e := Entry(Some(Str(l.model)), None, Some(l.contextWindow), Some(Endpoint(Some(Str(l.baseUrl)), l.apiKey)));
    var i := FirstWith(models, e.id);
    FirstWithAt(AddEntry(models, e), e.id, i);
  }

  /** Adding another executor's entry takes nothing away. */
  lemma AddKeepsServing(models: seq<Entry>, l: Legacy, entry: Entry)
    requires Serves(models, l) && entry.endpoint.Some?
    ensures Serves(AddEntry(models, entry), l)
  {
    var i, k := FirstWith(models, Some(Str(l.model))), FirstWith(models, entry.id);
    var after := AddEntry(models, entry);
    assert forall j :: 0 <= j < |models| ==> Same(after[j].id, Some(Str(l.model))) == Same(models[j].id, Some(Str(l.model)));
    FirstWithAt(after, Some(Str(l.model)), i);
  }

  /** The catalog entries an executor's model ends up in. */
  lemma RewriteServes(models: seq<Entry>, executors: map<string, Json>, kind: string)
    requires kind == "agent" || kind == "write"
    requires AllAdvisory(models) && DuplicateFree(models) && DuplicateFree(RewriteBoth(models, executors).models)
    requires LegacyOf(executors, kind).Some?
    ensures Serves(RewriteBoth(models, executors).models, LegacyOf(executors, kind).value)
  {
    hide AddEntry, DuplicateFree, Serves, Inline, InlineEntry, Clashes;
    OtherExecutor(models, executors);
    InlineEntryOf(executors, kind);
    var l := LegacyOf(executors, kind).value;
    var first := RewriteExecutor(Rewrite(models, executors), "agent").models;
    var write := Inline(executors, "write");
    if kind == "agent" {
      NoClashYet(models, InlineEntry(Inline(executors, "agent").value));
      AddServes(models, l);
      if write.Some? {
        InlineHasEndpoint(write.value);
        AddKeepsServing(first, l, InlineEntry(write.value));
      }
    } else {
      if Inline(executors, "agent").Some? {
        NoClashYet(models, InlineEntry(Inline(executors, "agent").value));
        AddKeepsDuplicateFree(models, InlineEntry(Inline(executors, "agent").value));
      }
      AddKeepsDuplicateFree(first, InlineEntry(write.value));
      AddServes(first, l);
    }
  }

  lemma InlineHasEndpoint(ep: map<string, Json>)
    ensures InlineEntry(ep).endpoint.Some?
  {}

  lemma NoClashYet(models: seq<Entry>, entry: Entry)
    requires AllAdvisory(models)
    ensures !Clashes(models, entry)
  {}

  /** Parsing an entry back. */
  lemma EntryReadsBack(e: Entry)
    requires ParseModel(EntryJson(e)).Some?
    ensures var m := ParseModel(EntryJson(e)).value;
      e.id == Some(Str(m.id)) && m.caption == e.caption && m.contextWindow == e.contextWindow &&
      (e.endpoint.Some? ==> m.server.Some? && e.endpoint.value == Endpoint(Some(Str(m.server.value.baseUrl)), m.server.value.apiKey))
  {}

  lemma {:induction false} EntriesReadBack(models: seq<Entry>)
    requires ParseModels(EntriesJson(models)).Some?
    ensures var parsed := ParseModels(EntriesJson(models)).value;
      |parsed| == |models| && forall i :: 0 <= i < |models| ==> ParseModel(EntryJson(models[i])) == Some(parsed[i])
  {
    hide ParseModel, EntryJson;
    if models != [] {
      assert Init(EntriesJson(models)) == EntriesJson(Init(models));
      EntriesReadBack(Init(models));
    }
  }

  /** The parts of a rewritten file that the catalog is built from. */
  lemma ParsedRewrite(fields: map<string, Json>)
    requires "catalog" !in fields && Rewriting(fields).models != [] && Parse(Normalize(Obj(fields))).Some?
    ensures var config := Parse(Normalize(Obj(fields))).value;
      ParseModels(EntriesJson(Rewriting(fields).models)) == Some(config.models) && config.defaultServer.None?
  {
    hide ParseModels, EntriesJson, Rewriting, ParseDefault, ParseServer;
  }

  lemma ParsedDefault(fields: map<string, Json>, kind: string)
    requires "catalog" !in fields && "executors" in fields && fields["executors"].Obj?
    requires kind == "agent" || kind == "write"
    requires LegacyOf(fields["executors"].fields, kind).Some? && Parse(Normalize(Obj(fields))).Some?
    ensures var config := Parse(Normalize(Obj(fields))).value;
      (if kind == "agent" then config.recon else config.write) == Some(LegacyOf(fields["executors"].fields, kind).value.model)
  {
    hide ParseCatalog, AddEntry, Collected, EntriesJson, InlineEntry;
    var executors := fields["executors"].fields;
    var ep := Inline(executors, kind).value;
    OtherExecutor(Collected(fields), executors);
    var r := RewriteBoth(Collected(fields), executors);
    assert r.executors[kind] == Rewritten(executors[kind].fields, ep);
    assert Normalize(Obj(fields)).fields["executors"] == Obj(r.executors);
  }

  /** The rewrite preserves meaning: whenever the rewritten file is accepted, a job that
      names no model goes where its executor's old endpoint said, same server, same key,
      same model, with a window at least as large. */
  lemma MeaningPreserved(fields: map<string, Json>, kind: string)
    requires "catalog" !in fields && "executors" in fields && fields["executors"].Obj?
    requires kind == "agent" || kind == "write"
    requires LegacyOf(fields["executors"].fields, kind).Some?
    requires LegacyOf(fields["executors"].fields, kind).value.contextWindow >= MIN_AGENT_CONTEXT_WINDOW
    requires Parse(Normalize(Obj(fields))).Some? && UniqueIds(Parse(Normalize(Obj(fields))).value)
    ensures var l := LegacyOf(fields["executors"].fields, kind).value;
      var config := Parse(Normalize(Obj(fields))).value;
      var catalog := Catalog(Entries(config.models, config.defaultServer), config.recon, config.write);
      var r := Resolve(catalog, if kind == "agent" then Recon else Write, None);
      r.Use? && r.baseUrl == l.baseUrl && r.apiKey == l.apiKey && r.model == l.model && r.contextWindow >= l.contextWindow
  {
    hide RewriteBoth, AddEntry, EntriesJson, ParseModels, ParseModel, EntryJson, Parse, Normalize, DuplicateFree, AllAdvisory, Inline, Serves, Entries, Sole;
    var executors := fields["executors"].fields;
    var l := LegacyOf(executors, kind).value;
    var config := Parse(Normalize(Obj(fields))).value;
    var models := Rewriting(fields).models;
    RewriteIsNonEmpty(fields, kind);
    ParsedRewrite(fields);
    ParsedDefault(fields, kind);
    EntriesReadBack(models);
    IdsReadBack(models, config);
    EmptyIsFree();
    if "models" in fields && fields["models"].Arr? { AdvisoryOnly(fields["models"].items); }
    RewriteServes(Collected(fields), executors, kind);
    ServedIsResolved(models, config, l);
  }

  lemma RewriteIsNonEmpty(fields: map<string, Json>, kind: string)
    requires "executors" in fields && fields["executors"].Obj? && (kind == "agent" || kind == "write")
    requires LegacyOf(fields["executors"].fields, kind).Some?
    ensures Rewriting(fields).models != []
  {
    hide RewriteBoth, Collected;
    if RewriteBoth(Collected(fields), fields["executors"].fields).models == [] {
      NothingMoved(Collected(fields), fields["executors"].fields);
    }
  }

  /** Unique ids in the parsed catalog are unique ids in the rewrite. */
  lemma IdsReadBack(models: seq<Entry>, config: Config)
    requires UniqueIds(config) && |models| == |config.models|
    requires forall i :: 0 <= i < |models| ==> ParseModel(EntryJson(models[i])) == Some(config.models[i])
    ensures DuplicateFree(models)
  {
    hide ParseModel, EntryJson;
    forall i | 0 <= i < |models|
      ensures models[i].id == Some(Str(config.models[i].id))
    {
      EntryReadsBack(models[i]);
    }
  }

  lemma ServedIsResolved(models: seq<Entry>, config: Config, l: Legacy)
    requires UniqueIds(config) && |models| == |config.models| && Serves(models, l)
    requires forall i :: 0 <= i < |models| ==> ParseModel(EntryJson(models[i])) == Some(config.models[i])
    ensures l.model in Entries(config.models, config.defaultServer)
    ensures var e := Entries(config.models, config.defaultServer)[l.model];
      e.server == Some(Server(l.baseUrl, l.apiKey)) && e.contextWindow.Some? && e.contextWindow.value >= l.contextWindow
  {
    hide ParseModel, EntryJson, Entries;
    var i := FirstWith(models, Some(Str(l.model)));
    EntryReadsBack(models[i]);
    EntriesHas(config.models, config.defaultServer, i);
  }
}
