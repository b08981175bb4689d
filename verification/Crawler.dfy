/** The discovery crawl: merge the references of all model pages, then upsert each publication once. */
module Crawler {
  import opened Prelude
  import opened Tables
  import opened Registry
  import opened PublicationRefs

  // --- The crawl ---

  /** What a publication page gives. */
  datatype PubPage = PubPage(
    title: string, locale: string, series: seq<string>, models: seq<string>, procedures: seq<string>, hash: string)

  /** The fetched pages; None: the fetch or the page's parse raises. */
  datatype Web = Web(model: string -> Option<seq<Link>>, publication: string -> Option<PubPage>, server: Server)

  /** The references on each model page; None as soon as one page cannot be had. */
  function PagesOf(modelIds: seq<string>, web: Web): (pages: Option<seq<seq<Ref>>>)
    ensures pages.Some? ==> |pages.value| == |modelIds|
  {
    if modelIds == [] then Some([])
    else
      match PagesOf(modelIds[..|modelIds| - 1], web)
      case None => None
      case Some(front) =>
        match web.model(modelIds[|modelIds| - 1])
        case None => None
        case Some(links) => Some(front + [RefsOf(links)])
  }

  /** The models whose page mentions the publication. */
  function Mentions(modelIds: seq<string>, pages: seq<seq<Ref>>, pubId: string): seq<string>
    requires |pages| == |modelIds|
  {
    if modelIds == [] then []
    else
      var n := |modelIds| - 1;
      Mentions(modelIds[..n], pages[..n], pubId) + if pubId in Ids(pages[n]) then [modelIds[n]] else []
  }

  lemma {:induction false} MentionsExactly(modelIds: seq<string>, pages: seq<seq<Ref>>, pubId: string, model: string)
    requires |pages| == |modelIds|
    ensures model in Mentions(modelIds, pages, pubId)
            <==> exists i :: 0 <= i < |pages| && modelIds[i] == model && pubId in Ids(pages[i])
  {
    if modelIds != [] {
      var n := |modelIds| - 1;
      MentionsExactly(modelIds[..n], pages[..n], pubId, model);
      assert forall i :: 0 <= i < n ==> modelIds[..n][i] == modelIds[i] && pages[..n][i] == pages[i];
    }
  }

  function Build(page: PubPage, ref: Ref): Publication {
    Publication(ref.pubId, Details(ref.pubType, page.title, page.locale, ref.sourceUrl, page.series, page.models, page.procedures), page.hash)
  }

  /** The upsert of one reference whose page could be had. */
  function UpsertRef(db: Db, ref: Ref, page: PubPage, mentions: seq<string>): Db {
    Upserted(db, Build(page, ref), SortedSet(mentions)).0
  }

  /** The upsert of one reference; None when its page cannot be had or a statement raises. */
  type Step = (Db, Ref) -> Option<Db>

  function StepOf(modelIds: seq<string>, pages: seq<seq<Ref>>, web: Web): Step
    requires |pages| == |modelIds|
  {
    (db: Db, ref: Ref) =>
      match web.publication(ref.sourceUrl)
      case None => None
      case Some(page) =>
        var mentions := Mentions(modelIds, pages, ref.pubId);
        if UpsertRuns(db, web.server, Build(page, ref), SortedSet(mentions)) then Some(UpsertRef(db, ref, page, mentions))
        else None
  }

  /** The upserts of the first n references: whether they all happened, and the tables. */
  function UpsertsDone(db: Db, refs: seq<Ref>, step: Step, n: nat): (bool, Db)
    requires n <= |refs|
  {
    if n == 0 then (true, db)
    else
      var (ok, mid) := UpsertsDone(db, refs, step, n - 1);
      if !ok || step(mid, refs[n - 1]).None? then (false, mid) else (true, step(mid, refs[n - 1]).value)
  }

  /** A crawl specified flat: all links of all pages deduplicated once, each publication upserted once. */
  function Crawl(db: Db, modelIds: seq<string>, web: Web): (bool, Db) {
    match PagesOf(modelIds, web)
    case None => (false, db)
    case Some(pages) =>
      var refs := Dedupe(Flatten(pages));
      UpsertsDone(db, refs, StepOf(modelIds, pages, web), |refs|)
  }

  /** The two dicts of the crawl after the pages read so far (each page deduplicated on its own). */
  ghost predicate Merged(
    order: seq<string>, found: map<string, Ref>, models: map<string, seq<string>>, modelIds: seq<string>, pages: seq<seq<Ref>>)
    requires |pages| == |modelIds|
  {
    && Found(order, found, Flatten(PerPage(pages)))
    && MentionsKept(models, modelIds, pages)
  }

  ghost predicate MentionsKept(models: map<string, seq<string>>, modelIds: seq<string>, pages: seq<seq<Ref>>)
    requires |pages| == |modelIds|
  {
    forall p :: Known(models, p) == Mentions(modelIds, pages, p)
  }

  function Known(models: map<string, seq<string>>, p: string): seq<string> {
    if p in models then models[p] else []
  }

  class DiscoveryCrawler {
    const registry: PublicationRegistry

    constructor (registry: PublicationRegistry)
      ensures this.registry == registry
    {
      this.registry := registry;
    }

    method DiscoverSeed(modelIds: seq<string>, web: Web) returns (ok: bool)
      requires registry.session.server == web.server
      modifies registry.session
      ensures registry.session.committed == old(registry.session.committed)
      ensures (ok, registry.session.working) == Crawl(old(registry.session.working), modelIds, web)
    {
      var merged := MergePages(modelIds, web);
      if merged.None? {
        return false;
      }
      var (order, found, models) := merged.value;
      ghost var pages := PagesOf(modelIds, web).value;
      var refs := ValuesOf(order, found);
      FoundIsFlat(order, found, pages);
      ok := UpsertAll(refs, models, modelIds, pages, web);
    }

    /** The second loop: fetch and upsert every publication. */
    method UpsertAll(refs: seq<Ref>, models: map<string, seq<string>>, ghost modelIds: seq<string>, ghost pages: seq<seq<Ref>>, web: Web)
      returns (ok: bool)
      requires |pages| == |modelIds| && MentionsKept(models, modelIds, pages) && registry.session.server == web.server
      modifies registry.session
      ensures registry.session.committed == old(registry.session.committed)
      ensures (ok, registry.session.working)
           == UpsertsDone(old(registry.session.working), refs, StepOf(modelIds, pages, web), |refs|)
    {
      ghost var start, step := registry.session.working, StepOf(modelIds, pages, web);
      for i := 0 to |refs|
        invariant registry.session.committed == old(registry.session.committed)
        invariant UpsertsDone(start, refs, step, i) == (true, registry.session.working)
      {
        ok := UpsertOne(refs[i], models, modelIds, pages, web);
        if !ok {
          UpsertsStop(start, refs, step, i + 1, |refs|);
          return;
        }
      }
      ok := true;
    }

    /** The body of that loop. */
    method UpsertOne(ref: Ref, models: map<string, seq<string>>, ghost modelIds: seq<string>, ghost pages: seq<seq<Ref>>, web: Web)
      returns (ok: bool)
      requires |pages| == |modelIds| && MentionsKept(models, modelIds, pages) && registry.session.server == web.server
      modifies registry.session
      ensures registry.session.committed == old(registry.session.committed)
      ensures match StepOf(modelIds, pages, web)(old(registry.session.working), ref)
              case None => !ok && registry.session.working == old(registry.session.working)
              case Some(db) => ok && registry.session.working == db
    {
      var page := web.publication(ref.sourceUrl);
      if page.None? {
        return false;
      }
      assert Known(models, ref.pubId) == Mentions(modelIds, pages, ref.pubId);
      var result := registry.Upsert(Build(page.value, ref), SortedSet(Known(models, ref.pubId)));
      ok := result.Ok?;
    }
  }

  /** The merged dict holds the references of one flat pass. */
  lemma FoundIsFlat(order: seq<string>, found: map<string, Ref>, pages: seq<seq<Ref>>)
    requires Found(order, found, Flatten(PerPage(pages)))
    ensures ValuesOf(order, found) == Dedupe(Flatten(pages))
  {
    TwoLevelsAreFlat(pages);
    FoundIsDedupe(order, found, Flatten(PerPage(pages)));
  }

  lemma {:induction false} UpsertsStop(db: Db, refs: seq<Ref>, step: Step, m: nat, n: nat)
    requires m <= n <= |refs| && !UpsertsDone(db, refs, step, m).0
    ensures UpsertsDone(db, refs, step, n) == UpsertsDone(db, refs, step, m)
  {
    if m < n { UpsertsStop(db, refs, step, m, n - 1); }
  }

  /** Every upsert of the loop keeps this. */
  ghost predicate Keeps(refs: seq<Ref>, step: Step, kept: (Db, nat) -> bool) {
    forall d, i :: 0 <= i < |refs| && kept(d, i) && step(d, refs[i]).Some? ==> kept(step(d, refs[i]).value, i + 1)
  }

  lemma {:induction false} UpsertsKeep(db: Db, refs: seq<Ref>, step: Step, n: nat, kept: (Db, nat) -> bool)
    requires n <= |refs| && kept(db, 0) && Keeps(refs, step, kept) && UpsertsDone(db, refs, step, n).0
    ensures kept(UpsertsDone(db, refs, step, n).1, n)
  {
    if n > 0 { UpsertsKeep(db, refs, step, n - 1, kept); }
  }

  /** Also when the loop ends early. */
  lemma {:induction false} UpsertsAlwaysKeep(db: Db, refs: seq<Ref>, step: Step, n: nat, kept: Db -> bool)
    requires n <= |refs| && kept(db)
    requires forall d, ref :: kept(d) && step(d, ref).Some? ==> kept(step(d, ref).value)
    ensures kept(UpsertsDone(db, refs, step, n).1)
  {
    if n > 0 { UpsertsAlwaysKeep(db, refs, step, n - 1, kept); }
  }

  lemma {:induction false} PagesStop(modelIds: seq<string>, web: Web, m: nat)
    requires m <= |modelIds| && PagesOf(modelIds[..m], web).None?
    ensures PagesOf(modelIds, web).None?
  {
    if m < |modelIds| {
      var n := |modelIds| - 1;
      assert modelIds[..n][..m] == modelIds[..m];
      PagesStop(modelIds[..n], web, m);
    } else {
      assert modelIds[..m] == modelIds;
    }
  }

  /** The first loop: every page's own list of references merged into the shared dicts. */
  method MergePages(modelIds: seq<string>, web: Web)
    returns (r: Option<(seq<string>, map<string, Ref>, map<string, seq<string>>)>)
    ensures r.Some? <==> PagesOf(modelIds, web).Some?
    ensures r.Some? ==> Merged(r.value.0, r.value.1, r.value.2, modelIds, PagesOf(modelIds, web).value)
  {
    var order: seq<string> := [];
    var found: map<string, Ref> := map[];
    var models: map<string, seq<string>> := map[];
    ghost var pages: seq<seq<Ref>> := [];
    MergedNothing();
    for m := 0 to |modelIds|
      invariant |pages| == m && PagesOf(modelIds[..m], web) == Some(pages)
      invariant Merged(order, found, models, modelIds[..m], pages)
    {
      PagesStep(modelIds, web, m);
      var links := web.model(modelIds[m]);
      if links.None? {
        PagesStop(modelIds, web, m + 1);
        return None;
      }
      order, found, models := MergePage(order, found, models, modelIds[..m], pages, modelIds[m], links.value);
      pages := pages + [RefsOf(links.value)];
    }
    assert modelIds[..|modelIds|] == modelIds;
    r := Some((order, found, models));
  }

  lemma MergedNothing()
    ensures Merged([], map[], map[], [], [])
  {
    assert PerPage([]) == [];
  }

  lemma PagesStep(modelIds: seq<string>, web: Web, m: nat)
    requires m < |modelIds|
    ensures modelIds[..m + 1] == modelIds[..m] + [modelIds[m]]
    ensures PagesOf(modelIds[..m], web).Some? ==>
              PagesOf(modelIds[..m + 1], web)
              == match web.model(modelIds[m]) case None => None case Some(links) => Some(PagesOf(modelIds[..m], web).value + [RefsOf(links)])
  {
    assert modelIds[..m + 1][..m] == modelIds[..m];
  }

  /** The model is noted once for each of these publications. */
  ghost predicate Noted(models0: map<string, seq<string>>, models: map<string, seq<string>>, ids: seq<string>, modelId: string) {
    forall p :: Known(models, p) == Known(models0, p) + if p in ids then [modelId] else []
  }

  /** referenced_by.setdefault(pub_id, set()).add(model_id), for a publication not noted on this page yet. */
  method NoteModel(models: map<string, seq<string>>, ghost models0: map<string, seq<string>>, ghost ids: seq<string>, pubId: string, modelId: string)
    returns (models': map<string, seq<string>>)
    requires Noted(models0, models, ids, modelId) && pubId !in ids
    ensures Noted(models0, models', ids + [pubId], modelId)
  {
    models' := models[pubId := Known(models, pubId) + [modelId]];
    assert Known(models, pubId) == Known(models0, pubId);
    forall p ensures Known(models', p) == Known(models0, p) + if p in ids + [pubId] then [modelId] else [] {
      assert Known(models, p) == Known(models0, p) + if p in ids then [modelId] else [];
    }
  }

  /** The body of the loop over one page's references. */
  method MergeOne(
    order0: seq<string>, found0: map<string, Ref>, ghost before: seq<Ref>, ref: Ref)
    returns (order: seq<string>, found: map<string, Ref>)
    requires Found(order0, found0, before)
    ensures Found(order, found, before + [ref])
  {
    order, found := order0, found0;
    FoundAdds(order, found, before, ref);
    if ref.pubId !in found {
      found := found[ref.pubId := ref];
      order := order + [ref.pubId];
    } else if ref.pubType != "" && found[ref.pubId].pubType == "" {
      found := found[ref.pubId := ref];
    }
  }

  /** One model page. */
  method MergePage(
    order0: seq<string>, found0: map<string, Ref>, models0: map<string, seq<string>>,
    ghost modelIds: seq<string>, ghost pages: seq<seq<Ref>>, modelId: string, links: seq<Link>)
    returns (order: seq<string>, found: map<string, Ref>, models: map<string, seq<string>>)
    requires |pages| == |modelIds| && Merged(order0, found0, models0, modelIds, pages)
    ensures Merged(order, found, models, modelIds + [modelId], pages + [RefsOf(links)])
  {
    var refs := ParsePublicationRefs(links);
    DedupeIds(RefsOf(links));
    IdsAreTheIds(refs);
    order, found, models := MergeRefs(order0, found0, models0, Flatten(PerPage(pages)), modelId, refs, Ids(refs));
    MergedPage(order, found, models0, models, modelIds, pages, modelId, links);
  }

  lemma IdsAreTheIds(refs: seq<Ref>)
    ensures |Ids(refs)| == |refs| && forall i :: 0 <= i < |refs| ==> Ids(refs)[i] == refs[i].pubId
  {
    forall i | 0 <= i < |refs| ensures |Ids(refs)| == |refs| && Ids(refs)[i] == refs[i].pubId {
      IdsAt(refs, i);
    }
    IdsAt(refs, 0);
  }

  /** The loop over one page's references, which name different publications. */
  method MergeRefs(
    order0: seq<string>, found0: map<string, Ref>, models0: map<string, seq<string>>, ghost before: seq<Ref>,
    modelId: string, refs: seq<Ref>, ghost ids: seq<string>)
    returns (order: seq<string>, found: map<string, Ref>, models: map<string, seq<string>>)
    requires Found(order0, found0, before)
    requires |ids| == |refs| && Distinct(ids) && forall i :: 0 <= i < |refs| ==> ids[i] == refs[i].pubId
    ensures Found(order, found, before + refs) && Noted(models0, models, ids, modelId)
  {
    order, found, models := order0, found0, models0;
    NotedNothing(models0, modelId);
    assert before + refs[..0] == before;
    for i := 0 to |refs|
      invariant Found(order, found, before + refs[..i])
      invariant Noted(models0, models, ids[..i], modelId)
    {
      order, found, models := MergeStep(order, found, models, models0, before, refs, ids, i, modelId);
    }
    assert refs[..|refs|] == refs && ids[..|ids|] == ids;
  }

  /** The body of that loop. */
  method MergeStep(
    order0: seq<string>, found0: map<string, Ref>, models1: map<string, seq<string>>, ghost models0: map<string, seq<string>>,
    ghost before: seq<Ref>, refs: seq<Ref>, ghost ids: seq<string>, i: nat, modelId: string)
    returns (order: seq<string>, found: map<string, Ref>, models: map<string, seq<string>>)
    requires i < |refs| == |ids| && Distinct(ids) && ids[i] == refs[i].pubId
    requires Found(order0, found0, before + refs[..i]) && Noted(models0, models1, ids[..i], modelId)
    ensures Found(order, found, before + refs[..i + 1]) && Noted(models0, models, ids[..i + 1], modelId)
  {
    order, found := MergeOne(order0, found0, before + refs[..i], refs[i]);
    models := NoteModel(models1, models0, ids[..i], refs[i].pubId, modelId);
    assert before + refs[..i + 1] == before + refs[..i] + [refs[i]];
    assert ids[..i + 1] == ids[..i] + [refs[i].pubId];
  }

  lemma NotedNothing(models: map<string, seq<string>>, modelId: string)
    ensures Noted(models, models, [], modelId)
  {
  }

  lemma MergedPage(
    order: seq<string>, found: map<string, Ref>, models0: map<string, seq<string>>, models: map<string, seq<string>>,
    modelIds: seq<string>, pages: seq<seq<Ref>>, modelId: string, links: seq<Link>)
    requires |pages| == |modelIds| && MentionsKept(models0, modelIds, pages)
    requires Found(order, found, Flatten(PerPage(pages)) + Dedupe(RefsOf(links)))
    requires Noted(models0, models, Ids(Dedupe(RefsOf(links))), modelId)
    ensures Merged(order, found, models, modelIds + [modelId], pages + [RefsOf(links)])
  {
    PerPageSnoc(pages, RefsOf(links));
    DedupeIds(RefsOf(links));
    MentionsSnoc(models0, models, modelIds, pages, modelId, RefsOf(links), Ids(Dedupe(RefsOf(links))));
  }

  lemma PerPageSnoc(pages: seq<seq<Ref>>, page: seq<Ref>)
    ensures Flatten(PerPage(pages + [page])) == Flatten(PerPage(pages)) + Dedupe(page)
  {
    assert PerPage(pages + [page])[..|pages|] == PerPage(pages);
  }

  lemma MentionsSnoc(
    models0: map<string, seq<string>>, models: map<string, seq<string>>, modelIds: seq<string>, pages: seq<seq<Ref>>,
    modelId: string, page: seq<Ref>, ids: seq<string>)
    requires |pages| == |modelIds| && MentionsKept(models0, modelIds, pages) && Noted(models0, models, ids, modelId)
    requires forall p :: p in ids <==> p in Ids(page)
    ensures MentionsKept(models, modelIds + [modelId], pages + [page])
  {
    forall p ensures Known(models, p) == Mentions(modelIds + [modelId], pages + [page], p) {
      OneMorePage(modelIds, pages, modelId, page, p);
      assert Known(models0, p) == Mentions(modelIds, pages, p);
    }
  }

  lemma OneMorePage(modelIds: seq<string>, pages: seq<seq<Ref>>, modelId: string, page: seq<Ref>, p: string)
    requires |pages| == |modelIds|
    ensures Mentions(modelIds + [modelId], pages + [page], p)
            == Mentions(modelIds, pages, p) + if p in Ids(page) then [modelId] else []
  {
    assert (pages + [page])[..|pages|] == pages && (modelIds + [modelId])[..|modelIds|] == modelIds;
  }

  // --- The sitemap ---

  /** One child sitemap: whether it is the English one, and the model ids of its model pages in order. */
  datatype Sitemap = Sitemap(english: bool, modelIds: seq<string>)

  function English(sitemaps: seq<Sitemap>): seq<Sitemap> {
    if sitemaps == [] then []
    else (if sitemaps[0].english then [sitemaps[0]] else []) + English(sitemaps[1..])
  }

  function AllModelIds(sitemaps: seq<Sitemap>): seq<string> {
    if sitemaps == [] then [] else AllModelIds(sitemaps[..|sitemaps| - 1]) + sitemaps[|sitemaps| - 1].modelIds
  }

  lemma {:induction false} EnglishOnes(sitemaps: seq<Sitemap>)
    ensures forall s :: s in English(sitemaps) <==> s in sitemaps && s.english
  {
    if sitemaps != [] {
      EnglishOnes(sitemaps[1..]);
      assert sitemaps == [sitemaps[0]] + sitemaps[1..];
    }
  }

  lemma {:induction false} ModelIdsOf(sitemaps: seq<Sitemap>, m: string)
    ensures m in AllModelIds(sitemaps) <==> exists s :: s in sitemaps && m in s.modelIds
  {
    if sitemaps != [] {
      var n := |sitemaps| - 1;
      ModelIdsOf(sitemaps[..n], m);
      assert sitemaps == sitemaps[..n] + [sitemaps[n]];
    }
  }

  lemma SitemapModelsAre(sitemaps: seq<Sitemap>)
    ensures var listed := FirstSeen(AllModelIds(if English(sitemaps) != [] then English(sitemaps) else sitemaps));
            && Distinct(listed)
            && forall m :: m in listed <==>
                 exists s :: s in sitemaps && m in s.modelIds && (s.english || forall t :: t in sitemaps ==> !t.english)
  {
    var chosen := if English(sitemaps) != [] then English(sitemaps) else sitemaps;
    EnglishOnes(sitemaps);
    FirstSeenFacts(AllModelIds(chosen));
    assert English(sitemaps) != [] ==> English(sitemaps)[0] in English(sitemaps);
    forall m ensures m in AllModelIds(chosen) <==>
                       exists s :: s in sitemaps && m in s.modelIds && (s.english || forall t :: t in sitemaps ==> !t.english) {
      ModelIdsOf(chosen, m);
    }
  }

  /** Model ids of the English sitemaps (of all when none is English), each once in first-seen order. */
  method SitemapModels(sitemaps: seq<Sitemap>) returns (modelIds: seq<string>)
    ensures modelIds == FirstSeen(AllModelIds(if English(sitemaps) != [] then English(sitemaps) else sitemaps))
    // exactly the models of the English sitemaps, or of all sitemaps when none is English
    ensures Distinct(modelIds)
    ensures forall m :: m in modelIds <==>
              exists s :: s in sitemaps && m in s.modelIds && (s.english || forall t :: t in sitemaps ==> !t.english)
  {
    SitemapModelsAre(sitemaps);
    var chosen := English(sitemaps);
    if chosen == [] {
      chosen := sitemaps;
    }
    modelIds := ModelsListed(chosen);
  }

  /** The loop over the chosen sitemaps. */
  method ModelsListed(chosen: seq<Sitemap>) returns (modelIds: seq<string>)
    ensures modelIds == FirstSeen(AllModelIds(chosen))
  {
    modelIds := [];
    var seen: set<string> := {};
    for s := 0 to |chosen|
      invariant modelIds == FirstSeen(AllModelIds(chosen[..s])) && forall m :: m in seen <==> m in modelIds
    {
      modelIds, seen := AddSitemap(modelIds, seen, AllModelIds(chosen[..s]), chosen[s].modelIds);
      assert chosen[..s + 1][..s] == chosen[..s];
    }
    assert chosen[..|chosen|] == chosen;
  }

  lemma SeenStep(modelIds: seq<string>, seen: set<string>, listed: seq<string>, id: string)
    requires modelIds == FirstSeen(listed) && forall m :: m in seen <==> m in modelIds
    ensures FirstSeen(listed + [id]) == if id in seen then modelIds else modelIds + [id]
  {
    FirstSeenSnoc(listed, id);
    FirstSeenFacts(listed);
  }

  /** The inner loop over one sitemap. */
  method AddSitemap(modelIds0: seq<string>, seen0: set<string>, ghost before: seq<string>, ids: seq<string>)
    returns (modelIds: seq<string>, seen: set<string>)
    requires modelIds0 == FirstSeen(before) && forall m :: m in seen0 <==> m in modelIds0
    ensures modelIds == FirstSeen(before + ids) && forall m :: m in seen <==> m in modelIds
  {
    modelIds, seen := modelIds0, seen0;
    assert before + ids[..0] == before;
    for i := 0 to |ids|
      invariant modelIds == FirstSeen(before + ids[..i]) && forall m :: m in seen <==> m in modelIds
    {
      SeenStep(modelIds, seen, before + ids[..i], ids[i]);
      assert before + ids[..i + 1] == before + ids[..i] + [ids[i]];
      if ids[i] !in seen {
        seen := seen + {ids[i]};
        modelIds := modelIds + [ids[i]];
      }
    }
    assert ids[..|ids|] == ids;
  }

  // --- What a committed crawl says ---

  /** The events of the upserts, in order. */
  function SeenEvents(refs: seq<Ref>, web: Web, n: nat): seq<Event>
    requires n <= |refs|
  {
    if n == 0 then []
    else SeenEvents(refs, web, n - 1)
         + match web.publication(refs[n - 1].sourceUrl) case None => [] case Some(page) => [Seen(refs[n - 1].pubId, page.hash)]
  }

  function CrawlEvents(modelIds: seq<string>, web: Web): seq<Event> {
    match PagesOf(modelIds, web)
    case None => []
    case Some(pages) => SeenEvents(Dedupe(Flatten(pages)), web, |Dedupe(Flatten(pages))|)
  }

  /** A crawl only writes publications. */
  ghost predicate OnlyPublications(db: Db, db': Db) {
    db'.documents == db.documents && db'.chunks == db.chunks
    && db'.nextDocument == db.nextDocument && db'.nextChunk == db.nextChunk
  }

  lemma UpsertRefTouches(db: Db, ref: Ref, page: PubPage, mentions: seq<string>)
    ensures OnlyPublications(db, UpsertRef(db, ref, page, mentions))
    ensures RegistrySound(db) ==> RegistrySound(UpsertRef(db, ref, page, mentions))
  {
    if RegistrySound(db) { UpsertKeepsSound(db, Build(page, ref), SortedSet(mentions)); }
  }

  /** Whether the model is recorded as referencing the publication. */
  predicate Referenced(db: Db, p: string, model: string) {
    p in db.publications && model in db.publications[p].referencedBy
  }

  lemma UpsertRefReferences(db: Db, ref: Ref, page: PubPage, mentions: seq<string>, p: string, model: string)
    ensures var db' := UpsertRef(db, ref, page, mentions);
            && (p in db'.publications <==> p in db.publications || p == ref.pubId)
            && (Referenced(db', p, model) <==> Referenced(db, p, model) || (p == ref.pubId && model in mentions))
  {
    SortedSetFacts(mentions);
    ReferencesGrow(db, Build(page, ref), SortedSet(mentions), model);
  }

  lemma UpsertsTouchOnlyPublications(db: Db, refs: seq<Ref>, modelIds: seq<string>, pages: seq<seq<Ref>>, web: Web)
    requires |pages| == |modelIds|
    ensures var db' := UpsertsDone(db, refs, StepOf(modelIds, pages, web), |refs|).1;
            OnlyPublications(db, db') && (RegistrySound(db) ==> RegistrySound(db'))
  {
    var step := StepOf(modelIds, pages, web);
    var kept := (d: Db) => OnlyPublications(db, d) && (RegistrySound(db) ==> RegistrySound(d));
    forall d, ref | kept(d) && step(d, ref).Some? ensures kept(step(d, ref).value) {
      UpsertRefTouches(d, ref, web.publication(ref.sourceUrl).value, Mentions(modelIds, pages, ref.pubId));
    }
    UpsertsAlwaysKeep(db, refs, step, |refs|, kept);
  }

  lemma CrawlTouchesOnlyPublications(db: Db, modelIds: seq<string>, web: Web)
    ensures OnlyPublications(db, Crawl(db, modelIds, web).1)
    ensures RegistrySound(db) ==> RegistrySound(Crawl(db, modelIds, web).1)
  {
    if PagesOf(modelIds, web).Some? {
      var pages := PagesOf(modelIds, web).value;
      UpsertsTouchOnlyPublications(db, Dedupe(Flatten(pages)), modelIds, pages, web);
    }
  }

  /** The registry after the upserts of the first n references. */
  ghost predicate ReferencedAfter(db: Db, db': Db, named: bool, mentioned: bool, p: string, model: string) {
    && (p in db'.publications <==> p in db.publications || named)
    && (Referenced(db', p, model) <==> Referenced(db, p, model) || (named && mentioned))
  }

  ghost function ReferencesKept(db: Db, refs: seq<Ref>, mentioned: bool, p: string, model: string): (Db, nat) -> bool {
    (d: Db, i: nat) => i <= |refs| && ReferencedAfter(db, d, Named(refs, i, p), mentioned, p, model)
  }

  lemma RefReferences(
    db: Db, d: Db, refs: seq<Ref>, modelIds: seq<string>, pages: seq<seq<Ref>>, web: Web, i: nat, p: string, model: string)
    requires i < |refs| && |pages| == |modelIds| && StepOf(modelIds, pages, web)(d, refs[i]).Some?
    requires ReferencedAfter(db, d, Named(refs, i, p), model in Mentions(modelIds, pages, p), p, model)
    ensures ReferencedAfter(db, StepOf(modelIds, pages, web)(d, refs[i]).value, Named(refs, i + 1, p),
                            model in Mentions(modelIds, pages, p), p, model)
  {
    UpsertRefReferences(d, refs[i], web.publication(refs[i].sourceUrl).value, Mentions(modelIds, pages, refs[i].pubId), p, model);
  }

  lemma UpsertsReference(
    db: Db, refs: seq<Ref>, modelIds: seq<string>, pages: seq<seq<Ref>>, web: Web, p: string, model: string)
    requires |pages| == |modelIds| && UpsertsDone(db, refs, StepOf(modelIds, pages, web), |refs|).0
    ensures ReferencedAfter(db, UpsertsDone(db, refs, StepOf(modelIds, pages, web), |refs|).1,
                            Named(refs, |refs|, p), model in Mentions(modelIds, pages, p), p, model)
  {
    var step, kept := StepOf(modelIds, pages, web), ReferencesKept(db, refs, model in Mentions(modelIds, pages, p), p, model);
    forall d, i | 0 <= i < |refs| && kept(d, i) && step(d, refs[i]).Some? ensures kept(step(d, refs[i]).value, i + 1) {
      RefReferences(db, d, refs, modelIds, pages, web, i, p, model);
    }
    UpsertsKeep(db, refs, step, |refs|, kept);
  }

  /** One of the first n references is to the publication. */
  predicate Named(refs: seq<Ref>, n: nat, p: string)
    requires n <= |refs|
  {
    n > 0 && (Named(refs, n - 1, p) || refs[n - 1].pubId == p)
  }

  lemma {:induction false} NamedExactly(refs: seq<Ref>, n: nat, p: string)
    requires n <= |refs|
    ensures Named(refs, n, p) <==> p in Ids(refs[..n])
  {
    if n > 0 {
      NamedExactly(refs, n - 1, p);
      assert refs[..n] == refs[..n - 1] + [refs[n - 1]];
      IdsSnoc(refs[..n - 1], refs[n - 1]);
    }
  }

  /**
   * A completed crawl registers exactly what was known or linked, and a publication is referenced by a
   * model exactly if it was before or the model's page mentions it.
   */
  lemma CrawlReferences(db: Db, modelIds: seq<string>, web: Web, p: string, model: string)
    requires Crawl(db, modelIds, web).0
    ensures var db', pages := Crawl(db, modelIds, web).1, PagesOf(modelIds, web).value;
            var linked := p in Ids(Flatten(pages));
            && (p in db'.publications <==> p in db.publications || linked)
            && (Referenced(db', p, model) <==>
                  Referenced(db, p, model)
                  || exists i :: 0 <= i < |pages| && modelIds[i] == model && p in Ids(pages[i]))
  {
    var pages := PagesOf(modelIds, web).value;
    var refs := Dedupe(Flatten(pages));
    UpsertsReference(db, refs, modelIds, pages, web, p, model);
    NamedExactly(refs, |refs|, p);
    assert refs[..|refs|] == refs;
    DedupeIds(Flatten(pages));
    MentionsExactly(modelIds, pages, p, model);
    if i :| 0 <= i < |pages| && p in Ids(pages[i]) {
      LinkedIsInFlat(pages, i, p);
    }
  }

  lemma {:induction false} LinkedIsInFlat(pages: seq<seq<Ref>>, i: nat, p: string)
    requires i < |pages| && p in Ids(pages[i])
    ensures p in Ids(Flatten(pages))
  {
    var n := |pages| - 1;
    IdsAppend(Flatten(pages[..n]), pages[n]);
    if i < n { LinkedIsInFlat(pages[..n], i, p); }
  }

  // --- What a crawl leaves of each publication ---

  /** What a publication page makes of a reference: its type and address from the link, the rest from the page. */
  ghost predicate IsBuilt(pub: Publication, ref: Ref, page: PubPage) {
    && pub.pubId == ref.pubId && pub.contentHash == page.hash
    && pub.details.pubType == ref.pubType && pub.details.sourceUrl == ref.sourceUrl
    && pub.details.title == page.title && pub.details.locale == page.locale && pub.details.series == page.series
    && pub.details.models == page.models && pub.details.procedures == page.procedures
  }

  /** One of the first n references is p's and p is refreshed from its page, or none is and its row is as before. */
  ghost predicate RefreshedAfter(db: Db, db': Db, refs: seq<Ref>, web: Web, n: nat, p: string) {
    && n <= |refs|
    && if Named(refs, n, p) then
         exists i :: 0 <= i < n && refs[i].pubId == p && web.publication(refs[i].sourceUrl).Some?
                     && RefreshedBy(db, db', refs[i], web.publication(refs[i].sourceUrl).value)
       else (p in db'.publications <==> p in db.publications) && (p in db.publications ==> db'.publications[p] == db.publications[p])
  }

  ghost predicate RefreshedBy(db: Db, db': Db, ref: Ref, page: PubPage) {
    exists pub :: IsBuilt(pub, ref, page) && Refreshed(db, db', pub)
  }

  ghost function RefreshesKept(db: Db, refs: seq<Ref>, web: Web, p: string): (Db, nat) -> bool {
    (d: Db, i: nat) => RefreshedAfter(db, d, refs, web, i, p)
  }

  lemma RefRefreshes(
    db: Db, d: Db, refs: seq<Ref>, modelIds: seq<string>, pages: seq<seq<Ref>>, web: Web, i: nat, p: string)
    requires i < |refs| && |pages| == |modelIds| && StepOf(modelIds, pages, web)(d, refs[i]).Some?
    requires Distinct(Ids(refs)) && RefreshedAfter(db, d, refs, web, i, p)
    ensures RefreshedAfter(db, StepOf(modelIds, pages, web)(d, refs[i]).value, refs, web, i + 1, p)
  {
    var ref := refs[i];
    var page := web.publication(ref.sourceUrl).value;
    var d' := StepOf(modelIds, pages, web)(d, ref).value;
    var pub := Build(page, ref);
    UpsertMeans(d, pub, SortedSet(Mentions(modelIds, pages, ref.pubId)));
    assert IsBuilt(pub, ref, page);
    if ref.pubId == p {
      NotNamedTwice(refs, i);
      assert Refreshed(db, d', pub);
      assert RefreshedBy(db, d', ref, page);
    } else if Named(refs, i, p) {
      var j :| 0 <= j < i && refs[j].pubId == p && web.publication(refs[j].sourceUrl).Some?
               && RefreshedBy(db, d, refs[j], web.publication(refs[j].sourceUrl).value);
      RefreshCarries(db, d, d', refs[j], web.publication(refs[j].sourceUrl).value);
    }
  }

  lemma RefreshCarries(db: Db, d: Db, d': Db, ref: Ref, page: PubPage)
    requires RefreshedBy(db, d, ref, page)
    requires ref.pubId in d.publications ==> ref.pubId in d'.publications && d'.publications[ref.pubId] == d.publications[ref.pubId]
    ensures RefreshedBy(db, d', ref, page)
  {
    var pub :| IsBuilt(pub, ref, page) && Refreshed(db, d, pub);
    assert Refreshed(db, d', pub);
  }

  lemma NotNamedTwice(refs: seq<Ref>, i: nat)
    requires i < |refs| && Distinct(Ids(refs))
    ensures !Named(refs, i, refs[i].pubId)
  {
    NamedExactly(refs, i, refs[i].pubId);
    IdsAt(refs, i);
  }

  lemma UpsertsRefresh(
    db: Db, refs: seq<Ref>, modelIds: seq<string>, pages: seq<seq<Ref>>, web: Web, p: string)
    requires |pages| == |modelIds| && Distinct(Ids(refs)) && UpsertsDone(db, refs, StepOf(modelIds, pages, web), |refs|).0
    ensures RefreshedAfter(db, UpsertsDone(db, refs, StepOf(modelIds, pages, web), |refs|).1, refs, web, |refs|, p)
  {
    var step, kept := StepOf(modelIds, pages, web), RefreshesKept(db, refs, web, p);
    forall d, i | 0 <= i < |refs| && kept(d, i) && step(d, refs[i]).Some? ensures kept(step(d, refs[i]).value, i + 1) {
      RefRefreshes(db, d, refs, modelIds, pages, web, i, p);
    }
    UpsertsKeep(db, refs, step, |refs|, kept);
  }

  /**
   * A completed crawl refreshes each linked publication from its own page, under the type and address of
   * its best link, and leaves the row of every other publication as it was.
   */
  lemma CrawlRefreshes(db: Db, modelIds: seq<string>, web: Web, p: string)
    requires Crawl(db, modelIds, web).0
    ensures var db', links := Crawl(db, modelIds, web).1, Flatten(PagesOf(modelIds, web).value);
            if p in Ids(links) then
              && Best(links, p).Some? && web.publication(Best(links, p).value.sourceUrl).Some?
              && RefreshedBy(db, db', Best(links, p).value, web.publication(Best(links, p).value.sourceUrl).value)
            else (p in db'.publications <==> p in db.publications) && (p in db.publications ==> db'.publications[p] == db.publications[p])
  {
    var pages := PagesOf(modelIds, web).value;
    var links := Flatten(pages);
    var refs := Dedupe(links);
    DedupeIds(links);
    UpsertsRefresh(db, refs, modelIds, pages, web, p);
    NamedExactly(refs, |refs|, p);
    assert refs[..|refs|] == refs;
    if p in Ids(links) {
      var i :| 0 <= i < |refs| && refs[i].pubId == p && web.publication(refs[i].sourceUrl).Some?
               && RefreshedBy(db, Crawl(db, modelIds, web).1, refs[i], web.publication(refs[i].sourceUrl).value);
      DedupedIsBest(links, i);
    }
  }

  lemma DedupedIsBest(links: seq<Ref>, i: nat)
    requires i < |Dedupe(links)|
    ensures Best(links, Dedupe(links)[i].pubId) == Some(Dedupe(links)[i])
  {
    FirstSeenFacts(Ids(links));
    BestOfMembers(FirstSeen(Ids(links)), links, i);
  }

  lemma {:induction false} BestOfMembers(order: seq<string>, links: seq<Ref>, i: nat)
    requires i < |BestOf(order, links)|
    ensures Best(links, BestOf(order, links)[i].pubId) == Some(BestOf(order, links)[i])
  {
    var n := |order| - 1;
    if i < |BestOf(order[..n], links)| {
      BestOfMembers(order[..n], links, i);
    } else {
      FirstFound(links, order[n]);
    }
  }

  ghost function TracksKept(history: seq<Event>, refs: seq<Ref>, web: Web, p: string): (Db, nat) -> bool {
    (d: Db, i: nat) => i <= |refs| && Tracks(d, history + SeenEvents(refs, web, i), p)
  }

  lemma TracksAreKept(
    history: seq<Event>, refs: seq<Ref>, modelIds: seq<string>, pages: seq<seq<Ref>>, web: Web, p: string)
    requires |pages| == |modelIds|
    ensures Keeps(refs, StepOf(modelIds, pages, web), TracksKept(history, refs, web, p))
  {
    var step, kept := StepOf(modelIds, pages, web), TracksKept(history, refs, web, p);
    forall d, i | 0 <= i < |refs| && kept(d, i) && step(d, refs[i]).Some? ensures kept(step(d, refs[i]).value, i + 1) {
      RefTracks(d, history, refs, modelIds, pages, web, i, p);
    }
  }

  lemma UpsertsTrack(
    db: Db, history: seq<Event>, refs: seq<Ref>, modelIds: seq<string>, pages: seq<seq<Ref>>, web: Web, p: string)
    requires |pages| == |modelIds| && UpsertsDone(db, refs, StepOf(modelIds, pages, web), |refs|).0
    requires Tracks(db, history, p)
    ensures Tracks(UpsertsDone(db, refs, StepOf(modelIds, pages, web), |refs|).1, history + SeenEvents(refs, web, |refs|), p)
  {
    assert history + SeenEvents(refs, web, 0) == history;
    TracksAreKept(history, refs, modelIds, pages, web, p);
    UpsertsKeep(db, refs, StepOf(modelIds, pages, web), |refs|, TracksKept(history, refs, web, p));
  }

  /** One upsert of the loop. */
  lemma RefTracks(
    db: Db, history: seq<Event>, refs: seq<Ref>, modelIds: seq<string>, pages: seq<seq<Ref>>, web: Web, i: nat, p: string)
    requires i < |refs| && |pages| == |modelIds| && Tracks(db, history + SeenEvents(refs, web, i), p)
    requires StepOf(modelIds, pages, web)(db, refs[i]).Some?
    ensures Tracks(StepOf(modelIds, pages, web)(db, refs[i]).value, history + SeenEvents(refs, web, i + 1), p)
  {
    var ref := refs[i];
    LastEvent(history, refs, web, i + 1);
    UpsertTracks(db, history + SeenEvents(refs, web, i), Build(web.publication(ref.sourceUrl).value, ref),
                 SortedSet(Mentions(modelIds, pages, ref.pubId)), p);
  }

  lemma LastEvent(history: seq<Event>, refs: seq<Ref>, web: Web, n: nat)
    requires 1 <= n <= |refs| && web.publication(refs[n - 1].sourceUrl).Some?
    ensures history + SeenEvents(refs, web, n)
            == history + SeenEvents(refs, web, n - 1) + [Seen(refs[n - 1].pubId, web.publication(refs[n - 1].sourceUrl).value.hash)]
  {
  }

  /** A completed crawl leaves the registry in agreement with the history it extends. */
  lemma CrawlTracks(db: Db, history: seq<Event>, modelIds: seq<string>, web: Web, p: string)
    requires Crawl(db, modelIds, web).0 && Tracks(db, history, p)
    ensures Tracks(Crawl(db, modelIds, web).1, history + CrawlEvents(modelIds, web), p)
  {
    var pages := PagesOf(modelIds, web).value;
    var refs := Dedupe(Flatten(pages));
    UpsertsTrack(db, history, refs, modelIds, pages, web, p);
  }
}
