/** What the configuration rewrite makes of a file, said of the JSON that goes in and the
    JSON that comes out. */
module ConfigMeanings {
  import opened Basics
  import opened Configs

  // ---- Reading the old file ------------------------------------------------

  function ObjectAt(o: map<string, Json>, key: string): Option<map<string, Json>> {
    if key in o && o[key].Obj? then Some(o[key].fields) else None
  }

  /** The old advisory list. */
  function Items(fields: map<string, Json>): seq<Json> {
    if "models" in fields && fields["models"].Arr? then fields["models"].items else []
  }

  /** `executors.<kind>.endpoint`. */
  function EndpointOf(fields: map<string, Json>, kind: string): Option<map<string, Json>> {
    match ObjectAt(fields, "executors")
    case None => None
    case Some(executors) => (match ObjectAt(executors, kind) case None => None case Some(executor) => ObjectAt(executor, "endpoint"))
  }

  /** An item of the list with that string as its id; any other item is malformed. */
  predicate Lists(item: Json, id: string) { item.Obj? && StringAt(item.fields, "id") == Some(id) }

  predicate Served(fields: map<string, Json>, kind: string, id: Option<Json>) {
    EndpointOf(fields, kind).Some? && Field(EndpointOf(fields, kind).value, "model") == id
  }

  predicate Listed(items: seq<Json>, id: string) { exists i :: 0 <= i < |items| && Lists(items[i], id) }

  /** The file speaks of a model by that id. */
  predicate Mentioned(fields: map<string, Json>, id: Option<Json>) {
    (id.Some? && id.value.Str? && Listed(Items(fields), id.value.s)) || Served(fields, "agent", id) || Served(fields, "write", id)
  }

  predicate ListsWindow(item: Json, id: string, window: real) {
    Lists(item, id) && NumberAt(item.fields, "contextWindow") == Some(window)
  }

  predicate ServesWindow(fields: map<string, Json>, kind: string, id: string, window: real) {
    Served(fields, kind, Some(Str(id))) && NumberAt(EndpointOf(fields, kind).value, "contextWindow") == Some(window)
  }

  predicate SaysWindow(fields: map<string, Json>, id: string, window: real) {
    (exists i :: 0 <= i < |Items(fields)| && ListsWindow(Items(fields)[i], id, window)) ||
    ServesWindow(fields, "agent", id, window) || ServesWindow(fields, "write", id, window)
  }

  /** The largest window given for the model, if any is. */
  ghost predicate LargestWindow(fields: map<string, Json>, id: string, window: Option<real>) {
    (window.Some? ==> SaysWindow(fields, id, window.value)) &&
    forall w :: SaysWindow(fields, id, w) ==> window.Some? && w <= window.value
  }

  predicate ListsLabel(item: Json, id: string, text: string) {
    Lists(item, id) && StringAt(item.fields, "label") == Some(text)
  }

  /** The last label given for the model, if any is. */
  ghost predicate LastLabel(items: seq<Json>, id: string, text: Option<string>) {
    match text
    case None => forall i, s :: 0 <= i < |items| ==> !ListsLabel(items[i], id, s)
    case Some(s) =>
      exists i :: 0 <= i < |items| && ListsLabel(items[i], id, s) && forall k, other :: i < k < |items| ==> !ListsLabel(items[k], id, other)
  }

  /** Where the model is served: what the last executor that names it says. */
  function ServerOf(fields: map<string, Json>, id: string): Option<map<string, Json>> {
    if Served(fields, "write", Some(Str(id))) then EndpointOf(fields, "write")
    else if Served(fields, "agent", Some(Str(id))) then EndpointOf(fields, "agent")
    else None
  }

  // ---- The list of entries as one fold -------------------------------------

  function AddAll(sources: seq<Entry>): seq<Entry> {
    if sources == [] then [] else AddEntry(AddAll(Init(sources)), Last(sources))
  }

  function Advised(items: seq<Json>): seq<Entry> {
    if items == [] then []
    else Advised(Init(items)) + match Advisory(Last(items)) case None => [] case Some(e) => [e]
  }

  function Inlined(executors: map<string, Json>, kind: string): seq<Entry> {
    match Inline(executors, kind) case None => [] case Some(ep) => [InlineEntry(ep)]
  }

  function Sources(fields: map<string, Json>): seq<Entry> {
    Advised(Items(fields)) +
    match ObjectAt(fields, "executors") case None => [] case Some(executors) => Inlined(executors, "agent") + Inlined(executors, "write")
  }

  lemma {:induction false} AdvisedIs(items: seq<Json>)
    ensures AddAdvisory(items) == AddAll(Advised(items))
  {
    if items != [] {
      AdvisedIs(Init(items));
      var e, before := Advisory(Last(items)), Advised(Init(items));
      if e.Some? {
        assert Init(before + [e.value]) == before;
      } else {
        assert before + [] == before;
      }
    }
  }

  lemma AddOne(sources: seq<Entry>, executors: map<string, Json>, kind: string)
    ensures RewriteExecutor(Rewrite(AddAll(sources), executors), kind).models == AddAll(sources + Inlined(executors, kind))
  {
    var ep := Inline(executors, kind);
    if ep.Some? {
      assert Init(sources + [InlineEntry(ep.value)]) == sources;
    } else {
      assert sources + [] == sources;
    }
  }

  lemma SourcesAre(fields: map<string, Json>)
    ensures Rewriting(fields).models == AddAll(Sources(fields))
  {
    hide AddAll, Inline, InlineEntry, AddAdvisory;
    var items := Items(fields);
    AdvisedIs(items);
    assert Collected(fields) == AddAll(Advised(items)) by { EmptyList(); }
    var executors := ObjectAt(fields, "executors");
    if executors.Some? {
      AddOne(Advised(items), executors.value, "agent");
      var first := RewriteExecutor(Rewrite(Collected(fields), executors.value), "agent");
      OtherExecutor(Collected(fields), executors.value);
      AddOne(Advised(items) + Inlined(executors.value, "agent"), first.executors, "write");
      assert Sources(fields) == Advised(items) + Inlined(executors.value, "agent") + Inlined(executors.value, "write");
    } else {
      assert Sources(fields) == Advised(items);
    }
  }

  lemma EmptyList()
    ensures AddAll([]) == [] && Advised([]) == []
  {}

  predicate HasId(entries: seq<Entry>, id: Option<Json>) { exists i :: 0 <= i < |entries| && entries[i].id == id }

  /** No two sources put one id on different servers. */
  ghost predicate Clear(sources: seq<Entry>) {
    forall i, j :: 0 <= i < j < |sources| && Same(sources[i].id, sources[j].id) ==> !Conflicting(sources[i], sources[j])
  }

  ghost predicate WindowStands(sources: seq<Entry>, e: Entry) {
    (e.contextWindow.Some? ==> exists k :: 0 <= k < |sources| && Same(sources[k].id, e.id) && sources[k].contextWindow == e.contextWindow) &&
    forall k :: 0 <= k < |sources| && Same(sources[k].id, e.id) && sources[k].contextWindow.Some? ==>
      e.contextWindow.Some? && sources[k].contextWindow.value <= e.contextWindow.value
  }

  predicate LastCaption(sources: seq<Entry>, id: Option<Json>, caption: Option<string>) {
    match caption
    case None => forall k :: 0 <= k < |sources| && Same(sources[k].id, id) ==> sources[k].caption.None?
    case Some(_) =>
      exists i :: 0 <= i < |sources| && Same(sources[i].id, id) && sources[i].caption == caption &&
                  forall k :: i < k < |sources| && Same(sources[k].id, id) ==> sources[k].caption.None?
  }

  predicate LastEndpoint(sources: seq<Entry>, id: Option<Json>, endpoint: Option<Endpoint>) {
    match endpoint
    case None => forall k :: 0 <= k < |sources| && Same(sources[k].id, id) ==> sources[k].endpoint.None?
    case Some(_) =>
      exists i :: 0 <= i < |sources| && Same(sources[i].id, id) && sources[i].endpoint == endpoint &&
                  forall k :: i < k < |sources| && Same(sources[k].id, id) ==> sources[k].endpoint.None?
  }

  ghost predicate Stands(sources: seq<Entry>, e: Entry) {
    Same(e.id, e.id) ==> WindowStands(sources, e) && LastCaption(sources, e.id, e.caption) && LastEndpoint(sources, e.id, e.endpoint)
  }

  lemma {:induction false} AddAllIds(sources: seq<Entry>)
    ensures forall id :: HasId(AddAll(sources), id) <==> HasId(sources, id)
  {
    if sources != [] {
      AddAllIds(Init(sources));
      AddEntryIds(AddAll(Init(sources)), Last(sources));
      forall id
        ensures HasId(sources, id) <==> HasId(Init(sources), id) || Last(sources).id == id
      {
        assert forall i :: 0 <= i < |sources| - 1 ==> sources[i] == Init(sources)[i];
        if Last(sources).id == id { assert sources[|sources| - 1].id == id; }
      }
    }
  }

  lemma AddEntryIds(models: seq<Entry>, e: Entry)
    ensures forall id :: HasId(AddEntry(models, e), id) <==> HasId(models, id) || e.id == id
  {
    var after, i := AddEntry(models, e), FirstWith(models, e.id);
    hide Conflicting;
    assert forall k :: 0 <= k < |models| ==> after[k].id == models[k].id;
    assert |after| > |models| ==> after[|models|] == e;
  }

  lemma SourceOther(sources: seq<Entry>, e: Entry, model: Entry)
    requires Stands(sources, model) && !Same(model.id, e.id)
    ensures Stands(sources + [e], model)
  {
    var more := sources + [e];
    if Same(model.id, model.id) {
      assert forall k :: 0 <= k < |sources| ==> more[k] == sources[k];
      assert !Same(e.id, model.id);
    }
  }

  lemma SourceFirst(sources: seq<Entry>, e: Entry)
    requires forall k :: 0 <= k < |sources| ==> !Same(sources[k].id, e.id)
    ensures Stands(sources + [e], e)
  {
    var more := sources + [e];
    assert more[|sources|] == e;
  }

  lemma SourceMerged(sources: seq<Entry>, e: Entry, model: Entry)
    requires Stands(sources, model) && Same(model.id, e.id)
    ensures Stands(sources + [e], Combined(model, e))
  {
    var more, c := sources + [e], Combined(model, e);
    assert forall k :: 0 <= k < |sources| ==> more[k] == sources[k] && (Same(sources[k].id, e.id) <==> Same(sources[k].id, model.id));
    assert more[|sources|] == e;
    MergedWindow(sources, e, model);
    MergedCaption(sources, e, model);
    MergedEndpoint(sources, e, model);
  }

  lemma MergedWindow(sources: seq<Entry>, e: Entry, model: Entry)
    requires WindowStands(sources, model) && Same(model.id, e.id)
    ensures WindowStands(sources + [e], Combined(model, e))
  {
    var more, c := sources + [e], Combined(model, e);
    assert forall k :: 0 <= k < |sources| ==> more[k] == sources[k];
    assert more[|sources|] == e;
    if c.contextWindow.Some? && c.contextWindow != e.contextWindow {
      var k :| 0 <= k < |sources| && Same(sources[k].id, model.id) && sources[k].contextWindow == model.contextWindow;
      assert more[k].contextWindow == c.contextWindow;
    }
  }

  lemma MergedCaption(sources: seq<Entry>, e: Entry, model: Entry)
    requires LastCaption(sources, model.id, model.caption) && Same(model.id, e.id)
    ensures LastCaption(sources + [e], e.id, Combined(model, e).caption)
  {
    var more := sources + [e];
    assert forall k :: 0 <= k < |sources| ==> more[k] == sources[k];
    assert more[|sources|] == e;
  }

  lemma MergedEndpoint(sources: seq<Entry>, e: Entry, model: Entry)
    requires LastEndpoint(sources, model.id, model.endpoint) && Same(model.id, e.id)
    ensures LastEndpoint(sources + [e], e.id, Combined(model, e).endpoint)
  {
    var more := sources + [e];
    assert forall k :: 0 <= k < |sources| ==> more[k] == sources[k];
    assert more[|sources|] == e;
  }

  lemma {:induction false} AddAllStands(sources: seq<Entry>)
    requires Clear(sources)
    ensures DuplicateFree(AddAll(sources)) && forall j :: 0 <= j < |AddAll(sources)| ==> Stands(sources, AddAll(sources)[j])
  {
    if sources != [] {
      var before, e := Init(sources), Last(sources);
      assert forall i :: 0 <= i < |before| ==> before[i] == sources[i];
      AddAllStands(before);
      AddAllIds(before);
      assert sources == before + [e];
      ClearNoClash(before, e);
      hide Clear, Stands, Conflicting, Combined, DuplicateFree;
      AddKeepsDuplicateFree(AddAll(before), e);
      AddStands(before, AddAll(before), e);
    }
  }

  lemma ClearNoClash(before: seq<Entry>, e: Entry)
    requires Clear(before + [e]) && forall j :: 0 <= j < |AddAll(before)| ==> Stands(before, AddAll(before)[j])
    ensures !Clashes(AddAll(before), e)
  {
    var models := AddAll(before);
    var i := FirstWith(models, e.id);
    if i < |models| && models[i].endpoint.Some? {
      assert Stands(before, models[i]);
      var k :| 0 <= k < |before| && Same(before[k].id, models[i].id) && before[k].endpoint == models[i].endpoint;
      assert (before + [e])[k] == before[k] && (before + [e])[|before|] == e;
    }
  }

  lemma AddStands(before: seq<Entry>, models: seq<Entry>, e: Entry)
    requires DuplicateFree(models) && !Clashes(models, e) && (forall j :: 0 <= j < |models| ==> Stands(before, models[j]))
    requires forall id :: HasId(models, id) <==> HasId(before, id)
    ensures forall j :: 0 <= j < |AddEntry(models, e)| ==> Stands(before + [e], AddEntry(models, e)[j])
  {
    hide Stands, Conflicting, Combined;
    var i, after := FirstWith(models, e.id), AddEntry(models, e);
    forall j | 0 <= j < |after|
      ensures Stands(before + [e], after[j])
    {
      if j == i {
        if i < |models| {
          SourceMerged(before, e, models[i]);
        } else {
          Unmentioned(before, models, e.id);
          SourceFirst(before, e);
        }
      } else {
        OnlyOne(models, e, i, j);
        SourceOther(before, e, models[j]);
      }
    }
  }

  lemma OnlyOne(models: seq<Entry>, e: Entry, i: nat, j: nat)
    requires DuplicateFree(models) && i == FirstWith(models, e.id) && j < |models| && j != i
    ensures !Same(models[j].id, e.id)
  {}

  lemma Unmentioned(before: seq<Entry>, models: seq<Entry>, id: Option<Json>)
    requires (forall x :: HasId(models, x) <==> HasId(before, x)) && forall k :: 0 <= k < |models| ==> !Same(models[k].id, id)
    ensures forall k :: 0 <= k < |before| ==> !Same(before[k].id, id)
  {
    forall k | 0 <= k < |before|
      ensures !Same(before[k].id, id)
    {
      assert HasId(before, before[k].id);
    }
  }

  // ---- The sources are what the file says ----------------------------------

  predicate GivesWindow(sources: seq<Entry>, id: Option<Json>, w: real) {
    exists k :: 0 <= k < |sources| && Same(sources[k].id, id) && sources[k].contextWindow == Some(w)
  }

  lemma WindowMore(sources: seq<Entry>, e: Entry, id: Option<Json>, w: real)
    ensures GivesWindow(sources + [e], id, w) <==> GivesWindow(sources, id, w) || (Same(e.id, id) && e.contextWindow == Some(w))
  {
    var more := sources + [e];
    assert more[|sources|] == e && forall k :: 0 <= k < |sources| ==> more[k] == sources[k];
  }

  lemma CaptionMore(sources: seq<Entry>, e: Entry, id: Option<Json>, caption: Option<string>)
    ensures LastCaption(sources + [e], id, caption) <==>
            if Same(e.id, id) && e.caption.Some? then caption == e.caption else LastCaption(sources, id, caption)
  {
    var more := sources + [e];
    assert more[|sources|] == e && forall k :: 0 <= k < |sources| ==> more[k] == sources[k];
  }

  lemma EndpointMore(sources: seq<Entry>, e: Entry, id: Option<Json>, endpoint: Option<Endpoint>)
    ensures LastEndpoint(sources + [e], id, endpoint) <==>
            if Same(e.id, id) && e.endpoint.Some? then endpoint == e.endpoint else LastEndpoint(sources, id, endpoint)
  {
    var more := sources + [e];
    assert more[|sources|] == e && forall k :: 0 <= k < |sources| ==> more[k] == sources[k];
  }

  lemma IdMore(sources: seq<Entry>, e: Entry, id: Option<Json>)
    ensures HasId(sources + [e], id) <==> HasId(sources, id) || e.id == id
  {
    var more := sources + [e];
    assert more[|sources|] == e && forall k :: 0 <= k < |sources| ==> more[k] == sources[k];
  }

  lemma LabelMore(items: seq<Json>, item: Json, id: string, text: Option<string>)
    ensures LastLabel(items + [item], id, text) <==>
            if Lists(item, id) && StringAt(item.fields, "label").Some? then text == StringAt(item.fields, "label")
            else LastLabel(items, id, text)
  {
    var more := items + [item];
    assert more[|items|] == item && forall k :: 0 <= k < |items| ==> more[k] == items[k];
    if Lists(item, id) && StringAt(item.fields, "label").Some? {
      assert ListsLabel(item, id, StringAt(item.fields, "label").value);
    }
  }

  lemma {:induction false} AdvisedIds(items: seq<Json>, id: Option<Json>)
    ensures HasId(Advised(items), id) <==> id.Some? && id.value.Str? && Listed(items, id.value.s)
  {
    if items != [] {
      var item, e := Last(items), Advisory(Last(items));
      AdvisedIds(Init(items), id);
      if e.Some? { IdMore(Advised(Init(items)), e.value, id); } else { assert Advised(items) == Advised(Init(items)); }
      assert items == Init(items) + [item];
      assert id.Some? && id.value.Str? ==>
        (Listed(items, id.value.s) <==> Listed(Init(items), id.value.s) || Lists(item, id.value.s)) by {
        assert items[|items| - 1] == item && forall i :: 0 <= i < |items| - 1 ==> items[i] == Init(items)[i];
      }
    }
  }

  lemma {:induction false} AdvisedWindow(items: seq<Json>, id: string, w: real)
    ensures GivesWindow(Advised(items), Some(Str(id)), w) <==> exists i :: 0 <= i < |items| && ListsWindow(items[i], id, w)
  {
    if items != [] {
      var item, e := Last(items), Advisory(Last(items));
      AdvisedWindow(Init(items), id, w);
      if e.Some? { WindowMore(Advised(Init(items)), e.value, Some(Str(id)), w); } else { assert Advised(items) == Advised(Init(items)); }
      assert items[|items| - 1] == item && forall i :: 0 <= i < |items| - 1 ==> items[i] == Init(items)[i];
    }
  }

  lemma {:induction false} AdvisedCaption(items: seq<Json>, id: string, text: Option<string>)
    ensures LastCaption(Advised(items), Some(Str(id)), text) <==> LastLabel(items, id, text)
  {
    if items != [] {
      var item, e := Last(items), Advisory(Last(items));
      AdvisedCaption(Init(items), id, text);
      assert items == Init(items) + [item];
      LabelMore(Init(items), item, id, text);
      if e.Some? { CaptionMore(Advised(Init(items)), e.value, Some(Str(id)), text); } else { assert Advised(items) == Advised(Init(items)); }
    }
  }

  lemma {:induction false} AdvisedHasNoEndpoint(items: seq<Json>)
    ensures forall k :: 0 <= k < |Advised(items)| ==> Advised(items)[k].endpoint.None?
  {
    if items != [] { AdvisedHasNoEndpoint(Init(items)); }
  }

  /** The sources, one after the other. */
  lemma SourcesBuilt(fields: map<string, Json>)
    ensures var agent, write := EndpointOf(fields, "agent"), EndpointOf(fields, "write");
      Sources(fields) == Advised(Items(fields)) + (if agent.Some? then [InlineEntry(agent.value)] else []) +
                         (if write.Some? then [InlineEntry(write.value)] else [])
  {
    hide InlineEntry, Advised;
  }

  lemma EndpointSource(sources: seq<Entry>, ep: map<string, Json>, id: string, w: real, text: Option<string>, endpoint: Option<Endpoint>)
    ensures var more, named := sources + [InlineEntry(ep)], Field(ep, "model") == Some(Str(id));
      (GivesWindow(more, Some(Str(id)), w) <==> GivesWindow(sources, Some(Str(id)), w) || (named && NumberAt(ep, "contextWindow") == Some(w))) &&
      (LastCaption(more, Some(Str(id)), text) <==> LastCaption(sources, Some(Str(id)), text)) &&
      (LastEndpoint(more, Some(Str(id)), endpoint) <==>
        if named then endpoint == Some(Endpoint(Field(ep, "baseUrl"), StringAt(ep, "apiKey"))) else LastEndpoint(sources, Some(Str(id)), endpoint))
  {
    WindowMore(sources, InlineEntry(ep), Some(Str(id)), w);
    CaptionMore(sources, InlineEntry(ep), Some(Str(id)), text);
    EndpointMore(sources, InlineEntry(ep), Some(Str(id)), endpoint);
  }

  function EntryEndpoint(server: Option<map<string, Json>>): Option<Endpoint> {
    match server case None => None case Some(ep) => Some(Endpoint(Field(ep, "baseUrl"), StringAt(ep, "apiKey")))
  }

  lemma SourcesSay(fields: map<string, Json>, id: string, w: real, text: Option<string>, endpoint: Option<Endpoint>)
    ensures GivesWindow(Sources(fields), Some(Str(id)), w) <==> SaysWindow(fields, id, w)
    ensures LastCaption(Sources(fields), Some(Str(id)), text) <==> LastLabel(Items(fields), id, text)
    ensures LastEndpoint(Sources(fields), Some(Str(id)), endpoint) ==> endpoint == EntryEndpoint(ServerOf(fields, id))
  {
    var items := Items(fields);
    AdvisedWindow(items, id, w);
    AdvisedCaption(items, id, text);
    AdvisedHasNoEndpoint(items);
    SourcesBuilt(fields);
    hide Advised, InlineEntry, GivesWindow, LastCaption, Sources, LastLabel, ListsWindow, Items;
    var agent, write := EndpointOf(fields, "agent"), EndpointOf(fields, "write");
    var first := Advised(items) + (if agent.Some? then [InlineEntry(agent.value)] else []);
    if agent.Some? {
      EndpointSource(Advised(items), agent.value, id, w, text, endpoint);
    } else {
      assert first == Advised(items);
    }
    if write.Some? {
      EndpointSource(first, write.value, id, w, text, endpoint);
    } else {
      assert first + [] == first;
    }
  }

  lemma SourcesMention(fields: map<string, Json>, id: Option<Json>)
    ensures HasId(Sources(fields), id) <==> Mentioned(fields, id)
  {
    var items := Items(fields);
    AdvisedIds(items, id);
    SourcesBuilt(fields);
    hide Advised, HasId, Sources, Items, Listed;
    var agent, write := EndpointOf(fields, "agent"), EndpointOf(fields, "write");
    var first := Advised(items) + (if agent.Some? then [InlineEntry(agent.value)] else []);
    if agent.Some? { IdMore(Advised(items), InlineEntry(agent.value), id); } else { assert first == Advised(items); }
    if write.Some? { IdMore(first, InlineEntry(write.value), id); } else { assert first + [] == first; }
  }

  /** Both executors name one model on different servers. */
  predicate Contradicts(fields: map<string, Json>) {
    var agent, write := EndpointOf(fields, "agent"), EndpointOf(fields, "write");
    agent.Some? && write.Some? && Same(Field(agent.value, "model"), Field(write.value, "model")) &&
    !(Same(Field(agent.value, "baseUrl"), Field(write.value, "baseUrl")) && StringAt(agent.value, "apiKey") == StringAt(write.value, "apiKey"))
  }

  lemma SourcesClear(fields: map<string, Json>)
    requires !Contradicts(fields)
    ensures Clear(Sources(fields))
  {
    var items := Items(fields);
    AdvisedHasNoEndpoint(items);
    SourcesBuilt(fields);
    hide Advised, Sources, Items;
    var agent, write := EndpointOf(fields, "agent"), EndpointOf(fields, "write");
    var sources, n := Sources(fields), |Advised(items)|;
    assert forall k :: 0 <= k < n ==> sources[k] == Advised(items)[k];
    assert agent.Some? ==> sources[n] == InlineEntry(agent.value);
    assert write.Some? ==> sources[|sources| - 1] == InlineEntry(write.value);
  }

  // ---- The new file --------------------------------------------------------

  /** The models of the catalog in a new file. */
  function CatalogItems(out: Json): seq<Json> {
    if out.Obj? && "catalog" in out.fields && out.fields["catalog"].Obj? then Items(out.fields["catalog"].fields) else []
  }

  predicate EntryFor(item: Json, id: Option<Json>) { item.Obj? && Field(item.fields, "id") == id }

  lemma {:induction false} EntriesAt(models: seq<Entry>)
    ensures |EntriesJson(models)| == |models| && forall j :: 0 <= j < |models| ==> EntriesJson(models)[j] == EntryJson(models[j])
  {
    if models != [] { EntriesAt(Init(models)); }
  }

  lemma EntryReads(e: Entry)
    ensures var item := EntryJson(e);
      item.Obj? && Field(item.fields, "id") == e.id && StringAt(item.fields, "label") == e.caption &&
      NumberAt(item.fields, "contextWindow") == e.contextWindow && item.fields.Keys <= {"id", "label", "contextWindow", "endpoint"} &&
      (e.endpoint.None? ==> "endpoint" !in item.fields) && (e.endpoint.Some? ==> item.fields["endpoint"] == EndpointJson(e.endpoint.value))
  {
    hide EndpointJson;
  }

  lemma EndpointReads(ep: Endpoint)
    ensures var item := EndpointJson(ep);
      item.Obj? && Field(item.fields, "baseUrl") == ep.baseUrl && StringAt(item.fields, "apiKey") == ep.apiKey &&
      item.fields.Keys <= {"baseUrl", "apiKey"}
  {}

  lemma CatalogIs(fields: map<string, Json>)
    requires "catalog" !in fields
    ensures var out, models := Normalize(Obj(fields)), AddAll(Sources(fields));
      out.Obj? && CatalogItems(out) == EntriesJson(models) && ("catalog" in out.fields <==> models != []) &&
      ("catalog" in out.fields ==> out.fields["catalog"] == Obj(map["models" := Arr(EntriesJson(models))]))
  {
    hide AddAll, Sources, Rewriting, EntriesJson;
    SourcesAre(fields);
    NoEntries();
  }

  lemma NoEntries()
    ensures EntriesJson([]) == []
  {}

  /** A file without a catalog gets one exactly if it speaks of a model; and the catalog
      has exactly the models it speaks of, in the old list or at an executor. */
  lemma CatalogNames(fields: map<string, Json>)
    requires "catalog" !in fields
    ensures var out := Normalize(Obj(fields));
      out.Obj? && ("catalog" in out.fields <==> exists id :: Mentioned(fields, id)) &&
      ("catalog" in out.fields ==> out.fields["catalog"] == Obj(map["models" := Arr(CatalogItems(out))])) &&
      forall id :: Mentioned(fields, id) <==> exists j :: 0 <= j < |CatalogItems(out)| && EntryFor(CatalogItems(out)[j], id)
  {
    hide AddAll, Sources, EntriesJson, Normalize, Mentioned, CatalogItems, HasId, EntryFor;
    CatalogIs(fields);
    var models := AddAll(Sources(fields));
    EntriesAt(models);
    AddAllIds(Sources(fields));
    forall id
      ensures Mentioned(fields, id) <==> HasId(models, id)
      ensures HasId(models, id) <==> exists j :: 0 <= j < |EntriesJson(models)| && EntryFor(EntriesJson(models)[j], id)
    {
      SourcesMention(fields, id);
      EntriesFor(models, id);
    }
    if models != [] {
      FirstIsThere(models);
      assert Mentioned(fields, models[0].id);
    }
  }

  lemma FirstIsThere(models: seq<Entry>)
    requires models != []
    ensures HasId(models, models[0].id)
  {}

  lemma EntriesFor(models: seq<Entry>, id: Option<Json>)
    ensures HasId(models, id) <==> exists j :: 0 <= j < |EntriesJson(models)| && EntryFor(EntriesJson(models)[j], id)
  {
    EntriesAt(models);
    hide EntriesJson, EntryJson;
    forall j | 0 <= j < |models|
      ensures EntryFor(EntriesJson(models)[j], id) <==> models[j].id == id
    {
      EntryReads(models[j]);
    }
  }

  /** Unless the executors contradict each other, a model is in the catalog once, with the
      largest window and the last label given for it, served where its executor said. */
  lemma CatalogSays(fields: map<string, Json>, j: nat, id: string)
    requires "catalog" !in fields && !Contradicts(fields)
    requires j < |CatalogItems(Normalize(Obj(fields)))| && EntryFor(CatalogItems(Normalize(Obj(fields)))[j], Some(Str(id)))
    ensures var items := CatalogItems(Normalize(Obj(fields)));
      var item := items[j].fields;
      (forall k :: 0 <= k < |items| && k != j ==> !EntryFor(items[k], Some(Str(id)))) &&
      LargestWindow(fields, id, NumberAt(item, "contextWindow")) && LastLabel(Items(fields), id, StringAt(item, "label")) &&
      item.Keys <= {"id", "label", "contextWindow", "endpoint"} && ("endpoint" in item <==> ServerOf(fields, id).Some?) &&
      ("endpoint" in item ==>
        item["endpoint"].Obj? && item["endpoint"].fields.Keys <= {"baseUrl", "apiKey"} &&
        Field(item["endpoint"].fields, "baseUrl") == Field(ServerOf(fields, id).value, "baseUrl") &&
        StringAt(item["endpoint"].fields, "apiKey") == StringAt(ServerOf(fields, id).value, "apiKey"))
  {
    CatalogIs(fields);
    var items, models := CatalogItems(Normalize(Obj(fields))), AddAll(Sources(fields));
    EntriesAt(models);
    SourcesClear(fields);
    AddAllStands(Sources(fields));
    EntryReads(models[j]);
    if models[j].endpoint.Some? { EndpointReads(models[j].endpoint.value); }
    hide AddAll, Sources, EntriesJson, EntryJson, EndpointJson, Normalize, CatalogItems, Clear;
    forall k | 0 <= k < |items| && k != j
      ensures !EntryFor(items[k], Some(Str(id)))
    {
      EntryReads(models[k]);
      DistinctIds(models, j, k);
    }
    StandsSays(fields, models[j], id);
  }

  lemma DistinctIds(models: seq<Entry>, j: nat, k: nat)
    requires DuplicateFree(models) && j < |models| && k < |models| && j != k && Same(models[j].id, models[j].id)
    ensures models[k].id != models[j].id
  {
    assert if j < k then !Same(models[j].id, models[k].id) else !Same(models[k].id, models[j].id);
  }

  lemma StandsSays(fields: map<string, Json>, e: Entry, id: string)
    requires Stands(Sources(fields), e) && e.id == Some(Str(id))
    ensures LargestWindow(fields, id, e.contextWindow) && LastLabel(Items(fields), id, e.caption)
    ensures e.endpoint == EntryEndpoint(ServerOf(fields, id))
  {
    hide Sources, SaysWindow, LastLabel, LastCaption, LastEndpoint, ServerOf, Items;
    forall w: real
      ensures GivesWindow(Sources(fields), e.id, w) <==> SaysWindow(fields, id, w)
    {
      SourcesSay(fields, id, w, e.caption, e.endpoint);
    }
    SourcesSay(fields, id, 0.0, e.caption, e.endpoint);
  }

  /** Everything else in the file stays: the list and the inline endpoints go, and an
      executor that had one keeps its allow-list and names its model as the default. */
  lemma RestIsKept(fields: map<string, Json>)
    requires "catalog" !in fields
    ensures var out := Normalize(Obj(fields));
      out.Obj? && (forall key :: key !in {"models", "executors", "catalog"} ==> Field(out.fields, key) == Field(fields, key)) &&
      Field(out.fields, "models") == (if "models" in fields && fields["models"].Arr? then None else Field(fields, "models")) &&
      (ObjectAt(fields, "executors").None? ==> Field(out.fields, "executors") == Field(fields, "executors")) &&
      (ObjectAt(fields, "executors").Some? ==>
        ObjectAt(out.fields, "executors").Some? &&
        forall kind :: ExecutorKept(fields, kind, Field(ObjectAt(out.fields, "executors").value, kind)))
  {
    hide EntriesJson, AddAdvisory, AddEntry, InlineEntry, Rewritten, RewriteBoth;
    if ObjectAt(fields, "executors").Some? {
      var executors := ObjectAt(fields, "executors").value;
      assert Rewriting(fields) == RewriteBoth(Collected(fields), executors);
      forall kind
        ensures ExecutorKept(fields, kind, Field(RewriteBoth(Collected(fields), executors).executors, kind))
      {
        ExecutorStays(fields, Collected(fields), executors, kind);
      }
    }
  }

  predicate ExecutorKept(fields: map<string, Json>, kind: string, after: Option<Json>)
    requires ObjectAt(fields, "executors").Some?
  {
    var before := Field(ObjectAt(fields, "executors").value, kind);
    if kind !in {"agent", "write"} || EndpointOf(fields, kind).None? then after == before
    else
      after.Some? && after.value.Obj? && after.value.fields.Keys <= {"defaultModel", "commandAllowlist"} &&
      Field(after.value.fields, "defaultModel") == Field(EndpointOf(fields, kind).value, "model") &&
      Field(after.value.fields, "commandAllowlist") == Field(before.value.fields, "commandAllowlist")
  }

  lemma ExecutorStays(fields: map<string, Json>, models: seq<Entry>, executors: map<string, Json>, kind: string)
    requires ObjectAt(fields, "executors") == Some(executors)
    ensures ExecutorKept(fields, kind, Field(RewriteBoth(models, executors).executors, kind))
  {
    hide AddEntry, InlineEntry;
    OtherExecutor(models, executors);
  }
}
