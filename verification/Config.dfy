/** Old configuration files, in which each executor named its own model server, rewritten
    into a model catalog; and the catalog's resolver, whose answers must not change. */
module Configs {
  import opened Basics

  /** Parsed JSON. A key set to `undefined` is not told apart from an absent one. */
  datatype Json =
    | Null
    | Bool(b: bool)
    | Num(n: real)
    | Str(s: string)
    | Arr(items: seq<Json>)
    | Obj(fields: map<string, Json>)

  function Field(o: map<string, Json>, key: string): Option<Json> {
    if key in o then Some(o[key]) else None
  }

  function StringAt(o: map<string, Json>, key: string): Option<string> {
    if key in o && o[key].Str? then Some(o[key].s) else None
  }

  function NumberAt(o: map<string, Json>, key: string): Option<real> {
    if key in o && o[key].Num? then Some(o[key].n) else None
  }

  /** `===`: two arrays or objects from different places are never the same. */
  predicate Same(a: Option<Json>, b: Option<Json>) {
    a == b && (a.Some? ==> !a.value.Arr? && !a.value.Obj?)
  }

  // ---- The rewrite ---------------------------------------------------------

  datatype Endpoint = Endpoint(baseUrl: Option<Json>, apiKey: Option<string>)

  /** A catalog entry under construction. */
  datatype Entry = Entry(id: Option<Json>, caption: Option<string>, contextWindow: Option<real>, endpoint: Option<Endpoint>)

  predicate SameEndpoint(a: Endpoint, b: Endpoint) { Same(a.baseUrl, b.baseUrl) && a.apiKey == b.apiKey }

  function LargerWindow(a: Option<real>, b: Option<real>): Option<real> {
    if a.None? then b else if b.None? then a else if a.value >= b.value then a else b
  }

  /** The entry `byId` remembers for an id: the first one. */
  function FirstWith(models: seq<Entry>, id: Option<Json>): (i: nat)
    ensures i <= |models| && (i < |models| ==> Same(models[i].id, id))
    ensures forall k :: 0 <= k < i ==> !Same(models[k].id, id)
  {
    if models == [] || Same(models[0].id, id) then 0 else 1 + FirstWith(models[1..], id)
  }

  predicate Conflicting(existing: Entry, entry: Entry) {
    existing.endpoint.Some? && entry.endpoint.Some? && !SameEndpoint(existing.endpoint.value, entry.endpoint.value)
  }

  /** `Object.assign` of the new entry onto the old, windows reconciled. */
  function Combined(existing: Entry, entry: Entry): Entry {
    Entry(entry.id,
          if entry.caption.Some? then entry.caption else existing.caption,
          LargerWindow(existing.contextWindow, entry.contextWindow),
          if entry.endpoint.Some? then entry.endpoint else existing.endpoint)
  }

  function AddEntry(models: seq<Entry>, entry: Entry): seq<Entry> {
    var i := FirstWith(models, entry.id);
    if i == |models| || Conflicting(models[i], entry) then models + [entry]
    else models[i := Combined(models[i], entry)]
  }

  /** An entry of the old advisory list; malformed ones are skipped. */
  function Advisory(item: Json): Option<Entry> {
    if item.Obj? && "id" in item.fields && item.fields["id"].Str?
    then Some(Entry(Some(item.fields["id"]), StringAt(item.fields, "label"), NumberAt(item.fields, "contextWindow"), None))
    else None
  }

  function AddAdvisory(items: seq<Json>): seq<Entry> {
    if items == [] then []
    else
      var before := AddAdvisory(Init(items));
      match Advisory(Last(items)) case None => before case Some(e) => AddEntry(before, e)
  }

  /** The inline endpoint of an executor, if it has one. */
  function Inline(executors: map<string, Json>, kind: string): Option<map<string, Json>> {
    if kind in executors && executors[kind].Obj? && "endpoint" in executors[kind].fields && executors[kind].fields["endpoint"].Obj?
    then Some(executors[kind].fields["endpoint"].fields) else None
  }

  function InlineEntry(ep: map<string, Json>): Entry {
    Entry(Field(ep, "model"), None, NumberAt(ep, "contextWindow"), Some(Endpoint(Field(ep, "baseUrl"), StringAt(ep, "apiKey"))))
  }

  /** What is left of an executor whose endpoint has moved to the catalog. */
  function Rewritten(ex: map<string, Json>, ep: map<string, Json>): Json {
    var model := if "model" in ep then map["defaultModel" := ep["model"]] else map[];
    Obj(if "commandAllowlist" in ex then model["commandAllowlist" := ex["commandAllowlist"]] else model)
  }

  datatype Rewrite = Rewrite(models: seq<Entry>, executors: map<string, Json>)

  function RewriteExecutor(r: Rewrite, kind: string): Rewrite {
    match Inline(r.executors, kind)
    case None => r
    case Some(ep) => Rewrite(AddEntry(r.models, InlineEntry(ep)), r.executors[kind := Rewritten(r.executors[kind].fields, ep)])
  }

  function RewriteBoth(models: seq<Entry>, executors: map<string, Json>): Rewrite {
    RewriteExecutor(RewriteExecutor(Rewrite(models, executors), "agent"), "write")
  }

  function EntryJson(e: Entry): Json {
    var id := if e.id.Some? then map["id" := e.id.value] else map[];
    var caption := if e.caption.Some? then id["label" := Str(e.caption.value)] else id;
    var window := if e.contextWindow.Some? then caption["contextWindow" := Num(e.contextWindow.value)] else caption;
    Obj(if e.endpoint.Some? then window["endpoint" := EndpointJson(e.endpoint.value)] else window)
  }

  function EndpointJson(ep: Endpoint): Json {
    var base := if ep.baseUrl.Some? then map["baseUrl" := ep.baseUrl.value] else map[];
    Obj(if ep.apiKey.Some? then base["apiKey" := Str(ep.apiKey.value)] else base)
  }

  function EntriesJson(models: seq<Entry>): seq<Json> {
    if models == [] then [] else EntriesJson(Init(models)) + [EntryJson(Last(models))]
  }

  /** The entries a legacy configuration gives rise to. */
  function Collected(fields: map<string, Json>): seq<Entry> {
    if "models" in fields && fields["models"].Arr? then AddAdvisory(fields["models"].items) else []
  }

  function WithoutModels(fields: map<string, Json>): map<string, Json> {
    if "models" in fields && fields["models"].Arr? then fields - {"models"} else fields
  }

  function Rewriting(fields: map<string, Json>): Rewrite {
    if "executors" in fields && fields["executors"].Obj?
    then RewriteBoth(Collected(fields), fields["executors"].fields)
    else Rewrite(Collected(fields), map[])
  }

  function Normalize(raw: Json): Json {
    if !raw.Obj? || "catalog" in raw.fields then raw
    else
      var r := Rewriting(raw.fields);
      var kept := WithoutModels(raw.fields);
      var moved := if "executors" in kept && kept["executors"].Obj? then kept["executors" := Obj(r.executors)] else kept;
      Obj(if r.models != [] then moved["catalog" := Obj(map["models" := Arr(EntriesJson(r.models))])] else moved)
  }

  /** `normalizeLegacyConfig` with its loops. */
  method NormalizeLegacyConfig(raw: Json) returns (out: Json)
    ensures out == Normalize(raw)
  {
    hide AddEntry, InlineEntry, Rewritten, EntriesJson;
    if !raw.Obj? || "catalog" in raw.fields {
      return raw;
    }
    var clone := raw.fields;
    var models: seq<Entry> := [];
    if "models" in clone && clone["models"].Arr? {
      var items := clone["models"].items;
      for i := 0 to |items|
        invariant models == AddAdvisory(items[..i])
      {
        assert Init(items[..i + 1]) == items[..i];
        var entry := Advisory(items[i]);
        if entry.Some? {
          models := Add(models, entry.value);
        }
      }
      assert items[..|items|] == items;
      clone := clone - {"models"};
    }
    assert models == Collected(raw.fields) && clone == WithoutModels(raw.fields);
    if "executors" in clone && clone["executors"].Obj? {
      var executors := clone["executors"].fields;
      ghost var start := Rewrite(models, executors);
      var kinds := ["agent", "write"];
      for i := 0 to 2
        invariant Rewrite(models, executors) ==
          if i == 0 then start else if i == 1 then RewriteExecutor(start, "agent") else RewriteBoth(start.models, start.executors)
      {
        var kind := kinds[i];
        var ep := Inline(executors, kind);
        if ep.Some? {
          models := Add(models, InlineEntry(ep.value));
          executors := executors[kind := Rewritten(executors[kind].fields, ep.value)];
        }
      }
      clone := clone["executors" := Obj(executors)];
    }
    if |models| > 0 {
      clone := clone["catalog" := Obj(map["models" := Arr(EntriesJson(models))])];
    }
    return Obj(clone);
  }

  /** `addEntry`: the first entry of an id is the one that is found again. */
  method Add(models: seq<Entry>, entry: Entry) returns (r: seq<Entry>)
    ensures r == AddEntry(models, entry)
  {
    var i := 0;
    while i < |models| && !Same(models[i].id, entry.id)
      invariant 0 <= i <= |models| && forall k :: 0 <= k < i ==> !Same(models[k].id, entry.id)
    {
      i := i + 1;
    }
    if i == |models| || Conflicting(models[i], entry) {
      return models + [entry];
    }
    return models[i := Combined(models[i], entry)];
  }

  // ---- Normalising twice ---------------------------------------------------

  lemma AddIsNonEmpty(models: seq<Entry>, entry: Entry)
    ensures AddEntry(models, entry) != []
  {}

  /** No entry means no inline endpoint to move. */
  lemma NothingMoved(models: seq<Entry>, executors: map<string, Json>)
    requires RewriteBoth(models, executors).models == []
    ensures models == [] && RewriteBoth(models, executors).executors == executors
    ensures Inline(executors, "agent").None? && Inline(executors, "write").None?
  {
    hide AddEntry, Inline, InlineEntry;
    var first := RewriteExecutor(Rewrite(models, executors), "agent");
    if Inline(first.executors, "write").Some? {
      AddIsNonEmpty(first.models, InlineEntry(Inline(first.executors, "write").value));
    } else if Inline(executors, "agent").Some? {
      AddIsNonEmpty(models, InlineEntry(Inline(executors, "agent").value));
    }
  }

  /** Normalising twice is normalising once. */
  lemma {:induction false} NormalizeIsIdempotent(raw: Json)
    ensures Normalize(Normalize(raw)) == Normalize(raw)
  {
    if raw.Obj? && "catalog" !in raw.fields {
      hide AddEntry, InlineEntry, RewriteExecutor, EntriesJson, RewriteBoth, AddAdvisory;
      var r := Rewriting(raw.fields);
      if r.models == [] {
        var kept := WithoutModels(raw.fields);
        if "executors" in raw.fields && raw.fields["executors"].Obj? {
          NothingMoved(Collected(raw.fields), raw.fields["executors"].fields);
          assert kept["executors" := Obj(r.executors)] == kept;
        }
        assert Normalize(raw) == Obj(kept);
        assert Collected(kept) == Collected(raw.fields) == [] by { CollectedAgain(raw.fields); }
        assert Rewriting(kept) == r;
        assert WithoutModels(kept) == kept;
      }
    }
  }

  lemma CollectedAgain(fields: map<string, Json>)
    requires Rewriting(fields).models == []
    ensures Collected(WithoutModels(fields)) == Collected(fields) == []
  {
    if "executors" in fields && fields["executors"].Obj? {
      NothingMoved(Collected(fields), fields["executors"].fields);
    }
  }

  // ---- Duplicate ids -------------------------------------------------------

  ghost predicate DuplicateFree(models: seq<Entry>) {
    forall i, j :: 0 <= i < j < |models| ==> !Same(models[i].id, models[j].id)
  }

  predicate AllAdvisory(models: seq<Entry>) {
    forall i :: 0 <= i < |models| ==> models[i].endpoint.None?
  }

  /** The new entry claims an id that another server already has. */
  predicate Clashes(models: seq<Entry>, entry: Entry) {
    var i := FirstWith(models, entry.id);
    i < |models| && Conflicting(models[i], entry)
  }

  lemma AddKeepsDuplicateFree(models: seq<Entry>, entry: Entry)
    requires DuplicateFree(models)
    ensures DuplicateFree(AddEntry(models, entry)) <==> !Clashes(models, entry)
  {
    hide Conflicting;
    var i, after := FirstWith(models, entry.id), AddEntry(models, entry);
    if Clashes(models, entry) {
      assert Same(after[i].id, after[|models|].id);
    } else if i < |models| {
      assert after[i].id == entry.id == models[i].id;
      assert forall k :: 0 <= k < |models| ==> after[k].id == models[k].id;
    }
  }

  lemma {:induction false} AdvisoryOnly(items: seq<Json>)
    ensures DuplicateFree(AddAdvisory(items)) && AllAdvisory(AddAdvisory(items))
  {
    if items != [] {
      AdvisoryOnly(Init(items));
      var before := AddAdvisory(Init(items));
      match Advisory(Last(items))
      case None =>
      case Some(e) =>
        assert !Clashes(before, e);
        AddKeepsDuplicateFree(before, e);
    }
  }

  /** Both executors name one model, on different servers or with different keys. */
  predicate Ambiguous(executors: map<string, Json>) {
    var agent, write := Inline(executors, "agent"), Inline(executors, "write");
    agent.Some? && write.Some? && Same(Field(agent.value, "model"), Field(write.value, "model")) &&
    !SameEndpoint(InlineEntry(agent.value).endpoint.value, InlineEntry(write.value).endpoint.value)
  }

  /** After one executor the only endpoint in the list is its own. */
  lemma OneEndpoint(models: seq<Entry>, entry: Entry)
    requires AllAdvisory(models) && DuplicateFree(models) && entry.endpoint.Some?
    ensures var after := AddEntry(models, entry);
      DuplicateFree(after) &&
      forall i :: 0 <= i < |after| && after[i].endpoint.Some? ==> after[i].id == entry.id && after[i].endpoint == entry.endpoint
    ensures Same(entry.id, entry.id) ==>
      var after := AddEntry(models, entry);
      var i := FirstWith(after, entry.id);
      i < |after| && after[i].endpoint == entry.endpoint
  {
    AddKeepsDuplicateFree(models, entry);
    var i, after := FirstWith(models, entry.id), AddEntry(models, entry);
    assert after[i].id == entry.id && after[i].endpoint == entry.endpoint;
    assert forall k :: 0 <= k < |after| && k != i ==> after[k] == models[k];
  }

  lemma OtherExecutor(models: seq<Entry>, executors: map<string, Json>)
    ensures Inline(RewriteExecutor(Rewrite(models, executors), "agent").executors, "write") == Inline(executors, "write")
  {}

  /** A duplicate catalog id arises exactly from that ambiguity. */
  lemma DuplicateIff(models: seq<Entry>, executors: map<string, Json>)
    requires AllAdvisory(models) && DuplicateFree(models)
    ensures DuplicateFree(RewriteBoth(models, executors).models) <==> !Ambiguous(executors)
  {
    hide AddEntry, DuplicateFree, SameEndpoint, Inline;
    OtherExecutor(models, executors);
    var agent, write := Inline(executors, "agent"), Inline(executors, "write");
    var first := RewriteExecutor(Rewrite(models, executors), "agent").models;
    if agent.Some? {
      OneEndpoint(models, InlineEntry(agent.value));
    }
    if write.Some? {
      AddKeepsDuplicateFree(first, InlineEntry(write.value));
    }
  }

  /** For a whole configuration file. */
  lemma DuplicateIdsAreAmbiguity(fields: map<string, Json>)
    ensures DuplicateFree(Rewriting(fields).models) <==>
            !("executors" in fields && fields["executors"].Obj? && Ambiguous(fields["executors"].fields))
  {
    hide DuplicateFree, Ambiguous, RewriteBoth, AllAdvisory;
    EmptyIsFree();
    if "models" in fields && fields["models"].Arr? {
      AdvisoryOnly(fields["models"].items);
    }
    if "executors" in fields && fields["executors"].Obj? {
      DuplicateIff(Collected(fields), fields["executors"].fields);
    }
  }

  lemma EmptyIsFree()
    ensures DuplicateFree([]) && AllAdvisory([])
  {}
}
