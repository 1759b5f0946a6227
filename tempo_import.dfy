/** Import of Tempo worklogs: the paged fetch of a date range, the metadata
    bag each worklog carries, best-effort enrichment from Jira, and the
    import itself, which adds the worklogs whose id is new for the source.
    The Tempo and Jira HTTP APIs and `DateOnly.Parse` are parameters. */
module TempoImport {
  import opened Wrappers
  import opened Text
  import opened Seqs
  import opened Domain
  import opened Store

  // ------------------------------------------------------------------
  // What Tempo and Jira return
  // ------------------------------------------------------------------

  datatype Attribute = Attribute(key: string, value: Option<string>)

  /** A Tempo worklog. `issueId` is absent when the worklog has no issue
      reference, `authorAccountId` when it has no author (or the account id
      is null), and a missing attribute list is the empty one. */
  datatype Worklog = Worklog(
    tempoWorklogId: int,
    issueId: Option<int>,
    timeSpentSeconds: int,
    billableSeconds: int,
    startDate: string,
    startTime: Option<string>,
    description: Option<string>,
    authorAccountId: Option<string>,
    attributes: seq<Attribute>)

  /** One page of `/worklogs`: its results and the `metadata.next` link. */
  datatype Page = Page(results: seq<Worklog>, next: Option<string>)

  datatype JiraFields = JiraFields(projectKey: Option<string>, extension: Option<Bag>)

  /** A Jira issue: its key, and its fields when present (the project key,
      and every other field as JSON, custom fields among them). */
  datatype JiraIssue = JiraIssue(key: string, fields: Option<JiraFields>)

  /** The outside world of the importer. `tempo(token, from, to)` lists the
      responses to the page requests at offsets 0, 5000, 10000, ... (an
      error is a failed request, with its message); a request past the end
      of the list gets an empty last page. `jira` fetches an issue by id and
      `parseDate` is `DateOnly.Parse`. */
  datatype Env = Env(
    tempo: (string, Date, Date) -> seq<Result<Page>>,
    jira: int -> Result<JiraIssue>,
    parseDate: string -> Result<Date>)

  // ------------------------------------------------------------------
  // Paged fetch
  // ------------------------------------------------------------------

  /** The page size the importer asks for. */
  const Limit := 5000

  /** The response to the request at `offset`. */
  function Response(pages: seq<Result<Page>>, offset: nat): Result<Page> {
    if offset / Limit < |pages| then pages[offset / Limit] else Ok(Page([], None))
  }

  /** The loop stops after a page with no next link or a short page. */
  predicate LastPage(p: Page) {
    p.next.None? || |p.next.value| == 0 || |p.results| < Limit
  }

  /** The fetch ends at this response: it failed, or it is the last page. */
  predicate Stops(r: Result<Page>) {
    r.Err? || LastPage(r.value)
  }

  function ResultsOf(r: Result<Page>): seq<Worklog> {
    if r.Ok? then r.value.results else []
  }

  /** The results of the responses, concatenated in order. */
  function Concat(pages: seq<Result<Page>>): seq<Worklog> {
    if |pages| == 0 then [] else Concat(pages[..|pages| - 1]) + ResultsOf(pages[|pages| - 1])
  }

  /** `FetchAllWorklogsAsync` as a value: the concatenated results up to and
      including the first last page, or the error of the first failed
      request before it. */
  function Fetch(pages: seq<Result<Page>>): (r: Result<seq<Worklog>>)
    ensures r.Err? <==> exists k :: 0 <= k < |pages| && Stops(pages[k]) && pages[k].Err? && forall j :: 0 <= j < k ==> !Stops(pages[j])
  {
    match FindIndex(pages, Stops)
    case None => Ok(Concat(pages))
    case Some(k) => if pages[k].Err? then Err(pages[k].error) else Ok(Concat(pages[..k + 1]))
  }

  /** The fetch ends at the first response that stops it: with its error
      when that request failed, else with the results of every page up to
      and including that last page. */
  lemma FetchStopsAt(pages: seq<Result<Page>>, k: nat)
    requires k < |pages| && Stops(pages[k])
    requires forall j :: 0 <= j < k ==> !Stops(pages[j])
    ensures Fetch(pages) == if pages[k].Err? then Err(pages[k].error) else Ok(Concat(pages[..k + 1]))
  {
    FindIndexIs(pages, Stops, k);
  }

  /** When every listed page is full and links on, the fetch reads them all
      and ends at the empty page after them. */
  lemma FetchRunsOut(pages: seq<Result<Page>>)
    requires forall j :: 0 <= j < |pages| ==> !Stops(pages[j])
    ensures Fetch(pages) == Ok(Concat(pages))
  {
    assert FindIndex(pages, Stops).None?;
  }

  lemma ConcatStep(pages: seq<Result<Page>>, k: nat)
    requires k < |pages|
    ensures Concat(pages[..k + 1]) == Concat(pages[..k]) + ResultsOf(pages[k])
  {
    assert pages[..k + 1][..k] == pages[..k];
  }

  lemma OffsetPage(k: nat)
    ensures (k * Limit) / Limit == k
  {
  }

  /** The `while (true)` loop: requests offset 0, 5000, ... and appends each
      page's results until a failed request or a last page. `requested`
      lists the offsets asked for: one per page up to the first that stops
      the loop, or one past the listed pages. */
  method FetchAll(pages: seq<Result<Page>>) returns (r: Result<seq<Worklog>>, ghost requested: seq<nat>)
    ensures r == Fetch(pages)
    ensures 1 <= |requested| <= |pages| + 1
    ensures forall j :: 0 <= j < |requested| ==> requested[j] == j * Limit
    ensures forall j :: 0 <= j < |requested| - 1 ==> !Stops(pages[j])
    ensures |requested| <= |pages| ==> Stops(pages[|requested| - 1])
  {
    var all := [];
    var offset := 0;
    ghost var k: nat := 0;
    requested := [];
    while true
      invariant k <= |pages| && offset == k * Limit
      invariant |requested| == k && forall j :: 0 <= j < k ==> requested[j] == j * Limit
      invariant forall j :: 0 <= j < k ==> !Stops(pages[j])
      invariant all == Concat(pages[..k])
      decreases |pages| - k
    {
      OffsetPage(k);
      var response := Response(pages, offset);
      assert response == if k < |pages| then pages[k] else Ok(Page([], None));
      requested := requested + [offset];
      if response.Err? {
        FetchStopsAt(pages, k);
        return Err(response.error), requested;
      }
      all := all + response.value.results;
      if LastPage(response.value) {
        if k < |pages| {
          FetchStopsAt(pages, k);
          ConcatStep(pages, k);
        } else {
          FetchRunsOut(pages);
          assert pages[..k] == pages;
          assert all == Concat(pages);
        }
        return Ok(all), requested;
      }
      ConcatStep(pages, k);
      offset := offset + Limit;
      k := k + 1;
    }
  }

  // ------------------------------------------------------------------
  // The metadata bag
  // ------------------------------------------------------------------

  function Named(key: string): ((string, MetaVal)) -> bool {
    (p: (string, MetaVal)) => p.0 == key
  }

  /** The value a bag holds under `key` (ordinal comparison). */
  function Lookup(bag: Bag, key: string): (r: Option<MetaVal>)
    ensures r.None? <==> forall k :: 0 <= k < |bag| ==> bag[k].0 != key
  {
    match FindIndex(bag, Named(key))
    case Some(i) => Some(bag[i].1)
    case None => None
  }

  /** The `meta[key] = value` indexer: replaces the value of an existing key
      in place, or adds the key at the end. */
  function Put(bag: Bag, key: string, v: MetaVal): Bag {
    match FindIndex(bag, Named(key))
    case Some(i) => bag[i := (key, v)]
    case None => bag + [(key, v)]
  }

  /** Two bags that agree position by position on which properties are
      named `key` and on those properties, where the longer one has no
      further property so named, hold the same value under `key`. */
  lemma LookupSame(a: Bag, b: Bag, key: string)
    requires |a| <= |b|
    requires forall j :: 0 <= j < |a| ==> (a[j].0 == key <==> b[j].0 == key) && (a[j].0 == key ==> a[j] == b[j])
    requires forall j :: |a| <= j < |b| ==> b[j].0 != key
    ensures Lookup(a, key) == Lookup(b, key)
  {
    match FindIndex(a, Named(key))
    case Some(i) =>
      assert forall j :: 0 <= j < i ==> !Named(key)(b[j]);
      FindIndexIs(b, Named(key), i);
    case None =>
      assert forall j :: 0 <= j < |b| ==> !Named(key)(b[j]);
  }

  /** After `meta[key] = v` the bag holds `v` under `key` and what it held
      before under every other key. */
  lemma PutLookup(bag: Bag, key: string, v: MetaVal, other: string)
    ensures Lookup(Put(bag, key, v), other) == if other == key then Some(v) else Lookup(bag, other)
  {
    var r := Put(bag, key, v);
    match FindIndex(bag, Named(key))
    case Some(i) =>
      if other == key {
        FindIndexIs(r, Named(key), i);
      } else {
        LookupSame(bag, r, other);
      }
    case None =>
      if other == key {
        FindIndexIs(r, Named(key), |bag|);
      } else {
        LookupSame(bag, r, other);
      }
  }

  lemma NotPrefix(p: string, s: string)
    requires 0 < |p| && 0 < |s| && p[0] != s[0]
    ensures !IsPrefix(p, s)
  {
    if |p| <= |s| {
      assert s[..|p|][0] == s[0];
    }
  }

  /** A nullable string as a JSON value. */
  function OptStr(s: Option<string>): MetaVal {
    if s.Some? then Str(s.value) else Null
  }

  /** `JsonElement.ToString()` for a non-null element: a string's text, the
      booleans as "True" and "False", anything else as its raw JSON text. */
  function ElementText(v: MetaVal): string {
    match v
    case Str(s) => s
    case Raw(t) => if t == "true" then "True" else if t == "false" then "False" else t
    case Null => ""
  }

  /** A Jira custom field as the bag stores it: JSON null stays null,
      anything else becomes its text. */
  function CustomValue(v: MetaVal): (r: MetaVal)
    ensures r.Null? <==> v.Null?
  {
    if v.Null? then Null else Str(ElementText(v))
  }

  function AttrKey(key: string): string {
    "attr_" + key
  }

  const CustomPrefix := "customfield_"

  /** The two properties every worklog's bag starts with. */
  function BaseMeta(w: Worklog): Bag {
    [("billableSeconds", Raw(IntToString(w.billableSeconds))), ("startTime", OptStr(w.startTime))]
  }

  /** The Tempo work attributes, each under "attr_" + its key. */
  function AddAttributes(bag: Bag, attrs: seq<Attribute>): Bag {
    if |attrs| == 0 then bag
    else
      var n := |attrs| - 1;
      Put(AddAttributes(bag, attrs[..n]), AttrKey(attrs[n].key), OptStr(attrs[n].value))
  }

  /** The Jira fields whose name starts with "customfield_". */
  function AddCustom(bag: Bag, fields: Bag): Bag {
    if |fields| == 0 then bag
    else
      var n := |fields| - 1;
      var prev := AddCustom(bag, fields[..n]);
      if StartsWithOrdinal(fields[n].0, CustomPrefix) then Put(prev, fields[n].0, CustomValue(fields[n].1)) else prev
  }

  /** `BuildMetadataJson` before serialisation. */
  function Metadata(w: Worklog, custom: Option<Bag>): Bag {
    var withAttrs := AddAttributes(BaseMeta(w), w.attributes);
    if custom.Some? then AddCustom(withAttrs, custom.value) else withAttrs
  }

  lemma AttrKeyPrefix(key: string)
    ensures IsPrefix("attr_", AttrKey(key))
  {
    assert AttrKey(key)[..5] == "attr_";
  }

  /** Adding attributes does not touch a key outside the "attr_" space. */
  lemma {:induction false} AttributesKeepOthers(bag: Bag, attrs: seq<Attribute>, key: string)
    requires !IsPrefix("attr_", key)
    ensures Lookup(AddAttributes(bag, attrs), key) == Lookup(bag, key)
  {
    if |attrs| > 0 {
      var n := |attrs| - 1;
      AttributesKeepOthers(bag, attrs[..n], key);
      AttrKeyPrefix(attrs[n].key);
      PutLookup(AddAttributes(bag, attrs[..n]), AttrKey(attrs[n].key), OptStr(attrs[n].value), key);
    }
  }

  /** Adding custom fields does not touch a key outside the "customfield_"
      space. */
  lemma {:induction false} CustomKeepsOthers(bag: Bag, fields: Bag, key: string)
    requires !IsPrefix(CustomPrefix, key)
    ensures Lookup(AddCustom(bag, fields), key) == Lookup(bag, key)
  {
    if |fields| > 0 {
      var n := |fields| - 1;
      CustomKeepsOthers(bag, fields[..n], key);
      PutLookup(AddCustom(bag, fields[..n]), fields[n].0, CustomValue(fields[n].1), key);
    }
  }

  lemma AttrKeyInjective(a: string, b: string)
    requires AttrKey(a) == AttrKey(b)
    ensures a == b
  {
    assert a == AttrKey(a)[5..];
    assert b == AttrKey(b)[5..];
  }

  /** Each attribute is stored under "attr_" + its key, the last of several
      with the same key winning. */
  lemma {:induction false} AttributeStored(bag: Bag, attrs: seq<Attribute>, i: nat)
    requires i < |attrs|
    requires forall j :: i < j < |attrs| ==> attrs[j].key != attrs[i].key
    ensures Lookup(AddAttributes(bag, attrs), AttrKey(attrs[i].key)) == Some(OptStr(attrs[i].value))
  {
    var n := |attrs| - 1;
    var prev := AddAttributes(bag, attrs[..n]);
    PutLookup(prev, AttrKey(attrs[n].key), OptStr(attrs[n].value), AttrKey(attrs[i].key));
    if i < n {
      AttributeStored(bag, attrs[..n], i);
      if AttrKey(attrs[n].key) == AttrKey(attrs[i].key) {
        AttrKeyInjective(attrs[n].key, attrs[i].key);
      }
    }
  }

  /** Each custom field is stored under its own name with its converted
      value, the last of several with the same name winning. */
  lemma {:induction false} CustomStored(bag: Bag, fields: Bag, i: nat)
    requires i < |fields| && StartsWithOrdinal(fields[i].0, CustomPrefix)
    requires forall j :: i < j < |fields| ==> fields[j].0 != fields[i].0
    ensures Lookup(AddCustom(bag, fields), fields[i].0) == Some(CustomValue(fields[i].1))
  {
    var n := |fields| - 1;
    var prev := AddCustom(bag, fields[..n]);
    PutLookup(prev, fields[n].0, CustomValue(fields[n].1), fields[i].0);
    if i < n {
      CustomStored(bag, fields[..n], i);
    }
  }

  /** The bag always holds billableSeconds, as a JSON number, and startTime,
      null when the worklog has none. */
  lemma MetadataHolds(w: Worklog, custom: Option<Bag>)
    ensures Lookup(Metadata(w, custom), "billableSeconds") == Some(Raw(IntToString(w.billableSeconds)))
    ensures Lookup(Metadata(w, custom), "startTime") == Some(OptStr(w.startTime))
  {
    var base := BaseMeta(w);
    FindIndexIs(base, Named("billableSeconds"), 0);
    assert !Named("startTime")(base[0]);
    FindIndexIs(base, Named("startTime"), 1);
    NotPrefix("attr_", "billableSeconds");
    NotPrefix("attr_", "startTime");
    AttributesKeepOthers(base, w.attributes, "billableSeconds");
    AttributesKeepOthers(base, w.attributes, "startTime");
    if custom.Some? {
      NotPrefix(CustomPrefix, "billableSeconds");
      NotPrefix(CustomPrefix, "startTime");
      CustomKeepsOthers(AddAttributes(base, w.attributes), custom.value, "billableSeconds");
      CustomKeepsOthers(AddAttributes(base, w.attributes), custom.value, "startTime");
    }
  }

  /** The bag holds nothing else: a key that is neither billableSeconds nor
      startTime, nor under "attr_" or "customfield_", is absent. */
  lemma MetadataNothingElse(w: Worklog, custom: Option<Bag>, key: string)
    requires key != "billableSeconds" && key != "startTime"
    requires !IsPrefix("attr_", key) && !IsPrefix(CustomPrefix, key)
    ensures Lookup(Metadata(w, custom), key).None?
  {
    var base := BaseMeta(w);
    AttributesKeepOthers(base, w.attributes, key);
    if custom.Some? {
      CustomKeepsOthers(AddAttributes(base, w.attributes), custom.value, key);
    }
  }

  /** Every work attribute is in the bag under "attr_" + its key (the last
      one with that key); the custom fields, whose names do not start with
      "attr_", never overwrite it. */
  lemma MetadataAttribute(w: Worklog, custom: Option<Bag>, i: nat)
    requires i < |w.attributes|
    requires forall j :: i < j < |w.attributes| ==> w.attributes[j].key != w.attributes[i].key
    ensures Lookup(Metadata(w, custom), AttrKey(w.attributes[i].key)) == Some(OptStr(w.attributes[i].value))
  {
    var withAttrs := AddAttributes(BaseMeta(w), w.attributes);
    AttributeStored(BaseMeta(w), w.attributes, i);
    if custom.Some? {
      NotPrefix(CustomPrefix, AttrKey(w.attributes[i].key));
      CustomKeepsOthers(withAttrs, custom.value, AttrKey(w.attributes[i].key));
    }
  }

  /** Every Jira field named "customfield_..." is in the bag under its name
      (the last one with that name), null kept as null and anything else as
      its text. */
  lemma MetadataCustom(w: Worklog, fields: Bag, i: nat)
    requires i < |fields| && StartsWithOrdinal(fields[i].0, CustomPrefix)
    requires forall j :: i < j < |fields| ==> fields[j].0 != fields[i].0
    ensures Lookup(Metadata(w, Some(fields)), fields[i].0) == Some(CustomValue(fields[i].1))
  {
    CustomStored(AddAttributes(BaseMeta(w), w.attributes), fields, i);
  }

  /** `BuildMetadataJson`: fills the dictionary in two loops. */
  method BuildMetadata(w: Worklog, custom: Option<Bag>) returns (meta: Bag)
    ensures meta == Metadata(w, custom)
  {
    meta := [("billableSeconds", Raw(IntToString(w.billableSeconds))), ("startTime", OptStr(w.startTime))];
    var attrs := w.attributes;
    var i := 0;
    while i < |attrs|
      invariant 0 <= i <= |attrs|
      invariant meta == AddAttributes(BaseMeta(w), attrs[..i])
    {
      assert attrs[..i + 1][..i] == attrs[..i];
      meta := Put(meta, AttrKey(attrs[i].key), OptStr(attrs[i].value));
      i := i + 1;
    }
    assert attrs[..i] == attrs;
    if custom.Some? {
      var fields := custom.value;
      ghost var withAttrs := meta;
      var j := 0;
      while j < |fields|
        invariant 0 <= j <= |fields|
        invariant meta == AddCustom(withAttrs, fields[..j])
      {
        assert fields[..j + 1][..j] == fields[..j];
        if StartsWithOrdinal(fields[j].0, CustomPrefix) {
          meta := Put(meta, fields[j].0, CustomValue(fields[j].1));
        }
        j := j + 1;
      }
      assert fields[..j] == fields;
    }
  }

  // ------------------------------------------------------------------
  // Worklogs as entries
  // ------------------------------------------------------------------

  /** What the Jira lookup contributes to an entry. */
  datatype Enrichment = Enrichment(projectKey: Option<string>, issueKey: Option<string>, customFields: Option<Bag>)

  /** The best-effort Jira lookup: only for a worklog whose issue id is
      positive, and a failed lookup contributes nothing. */
  function Enrich(w: Worklog, jira: int -> Result<JiraIssue>): (en: Enrichment)
    ensures !(w.issueId.Some? && w.issueId.value > 0) ==> en == Enrichment(None, None, None)
    ensures w.issueId.Some? && w.issueId.value > 0 && jira(w.issueId.value).Err? ==> en == Enrichment(None, None, None)
    ensures w.issueId.Some? && w.issueId.value > 0 && jira(w.issueId.value).Ok? ==>
      var issue := jira(w.issueId.value).value;
      && en.issueKey == Some(issue.key)
      && en.projectKey == (if issue.fields.Some? then issue.fields.value.projectKey else None)
      && en.customFields == (if issue.fields.Some? then issue.fields.value.extension else None)
  {
    if w.issueId.Some? && w.issueId.value > 0 then
      match jira(w.issueId.value)
      case Err(_) => Enrichment(None, None, None)
      case Ok(issue) =>
        if issue.fields.Some? then Enrichment(issue.fields.value.projectKey, Some(issue.key), issue.fields.value.extension)
        else Enrichment(None, Some(issue.key), None)
    else Enrichment(None, None, None)
  }

  /** The external id of a worklog: its Tempo id in decimal. */
  function WorklogId(w: Worklog): string {
    IntToString(w.tempoWorklogId)
  }

  /** The author's account id, or "unknown". */
  function AccountOf(w: Worklog): string {
    if w.authorAccountId.Some? then w.authorAccountId.value else "unknown"
  }

  /** The entry `ImportAsync` builds for a worklog. */
  function TempoEntry(id: int, sourceId: int, w: Worklog, en: Enrichment, date: Date, now: int): (e: ImportedEntry)
    ensures e.status == Pending && e.mappingRuleId.None? && e.projectId.None? && e.taskId.None?
    ensures e.id == id && e.sourceId == sourceId && e.externalId == WorklogId(w) && e.importedAt == now
    ensures e.userEmail == AccountOf(w) && e.workDate == date
    ensures e.timeSpentSeconds == w.timeSpentSeconds && e.description == w.description && e.activity.None?
    ensures e.projectKey == en.projectKey && e.issueKey == en.issueKey
    ensures e.metadata == Some(Metadata(w, en.customFields))
  {
    ImportedEntry(id, sourceId, WorklogId(w), AccountOf(w), date, w.timeSpentSeconds, w.description,
                  en.projectKey, en.issueKey, None, Some(Metadata(w, en.customFields)), Pending, now, None, None, None)
  }

  /** The worklogs whose id is not among `stored`, in order. */
  function Candidates(ws: seq<Worklog>, stored: set<string>): (cs: seq<Worklog>)
    ensures |cs| <= |ws|
  {
    if |ws| == 0 then []
    else
      var n := |ws| - 1;
      if WorklogId(ws[n]) in stored then Candidates(ws[..n], stored) else Candidates(ws[..n], stored) + [ws[n]]
  }

  /** The `foreach` over the fetched worklogs as a value: skips every
      worklog whose id was stored before the import began (the set is not
      updated as worklogs are added), and fails at the first new worklog
      whose start date does not parse. */
  function Convert(ws: seq<Worklog>, stored: set<string>, sourceId: int, firstId: int, env: Env, now: int): Result<seq<ImportedEntry>> {
    if |ws| == 0 then Ok([])
    else
      var n := |ws| - 1;
      Next(Convert(ws[..n], stored, sourceId, firstId, env, now), ws[n], stored, sourceId, firstId, env, now)
  }

  /** The entry for one new worklog, or the error of its start date. */
  function OneEntry(w: Worklog, id: int, sourceId: int, env: Env, now: int): Result<ImportedEntry> {
    match env.parseDate(w.startDate)
    case Err(e) => Err(e)
    case Ok(d) => Ok(TempoEntry(id, sourceId, w, Enrich(w, env.jira), d, now))
  }

  /** One turn of the loop. */
  function Next(prev: Result<seq<ImportedEntry>>, w: Worklog, stored: set<string>, sourceId: int, firstId: int, env: Env, now: int): Result<seq<ImportedEntry>> {
    if prev.Err? || WorklogId(w) in stored then prev
    else
      var one := OneEntry(w, firstId + |prev.value|, sourceId, env, now);
      if one.Err? then Err(one.error) else Ok(prev.value + [one.value])
  }

  /** The entry for the `k`-th new worklog. */
  predicate EntryFor(e: ImportedEntry, k: int, w: Worklog, sourceId: int, firstId: int, env: Env, now: int) {
    && env.parseDate(w.startDate).Ok?
    && e == TempoEntry(firstId + k, sourceId, w, Enrich(w, env.jira), env.parseDate(w.startDate).value, now)
  }

  /** `r` is the conversion of the new worklogs `cs`: it fails exactly when
      the start date of one of them does not parse, and otherwise holds one
      entry per new worklog, in order, with consecutive keys. */
  predicate Converted(r: Result<seq<ImportedEntry>>, cs: seq<Worklog>, sourceId: int, firstId: int, env: Env, now: int) {
    && (r.Err? <==> exists k :: 0 <= k < |cs| && env.parseDate(cs[k].startDate).Err?)
    && (r.Ok? ==> |r.value| == |cs| && forall k :: 0 <= k < |cs| ==> EntryFor(r.value[k], k, cs[k], sourceId, firstId, env, now))
  }

  /** A conversion that succeeds yields one entry per new worklog, in
      order, with consecutive keys; it fails exactly when some new
      worklog's start date does not parse. */
  lemma {:induction false} ConvertMeans(ws: seq<Worklog>, stored: set<string>, sourceId: int, firstId: int, env: Env, now: int)
    ensures Converted(Convert(ws, stored, sourceId, firstId, env, now), Candidates(ws, stored), sourceId, firstId, env, now)
  {
    if |ws| > 0 {
      var n := |ws| - 1;
      var prev, cs := Convert(ws[..n], stored, sourceId, firstId, env, now), Candidates(ws[..n], stored);
      assert Convert(ws, stored, sourceId, firstId, env, now) == Next(prev, ws[n], stored, sourceId, firstId, env, now);
      assert Candidates(ws, stored) == if WorklogId(ws[n]) in stored then cs else cs + [ws[n]];
      ConvertMeans(ws[..n], stored, sourceId, firstId, env, now);
      ConvertNext(prev, cs, ws[n], stored, sourceId, firstId, env, now);
    }
  }

  /** One turn of the loop extends the conversion by one worklog. */
  lemma ConvertNext(r: Result<seq<ImportedEntry>>, cs: seq<Worklog>, w: Worklog, stored: set<string>,
                    sourceId: int, firstId: int, env: Env, now: int)
    requires Converted(r, cs, sourceId, firstId, env, now)
    ensures Converted(Next(r, w, stored, sourceId, firstId, env, now), if WorklogId(w) in stored then cs else cs + [w],
                      sourceId, firstId, env, now)
  {
    if WorklogId(w) !in stored {
      var cs' := cs + [w];
      assert forall k :: 0 <= k < |cs| ==> cs'[k] == cs[k];
      if env.parseDate(w.startDate).Err? {
        assert env.parseDate(cs'[|cs|].startDate).Err?;
      }
    }
  }

  /** The candidates are the worklogs whose id is not stored: every one of
      them is among the worklogs with an unstored id, and every worklog
      with an unstored id is among them. */
  lemma {:induction false} CandidatesMeans(ws: seq<Worklog>, stored: set<string>)
    ensures forall k :: 0 <= k < |Candidates(ws, stored)| ==> WorklogId(Candidates(ws, stored)[k]) !in stored
    ensures forall k :: 0 <= k < |Candidates(ws, stored)| ==> Candidates(ws, stored)[k] in ws
    ensures forall k :: 0 <= k < |ws| && WorklogId(ws[k]) !in stored ==> ws[k] in Candidates(ws, stored)
  {
    if |ws| > 0 {
      var n := |ws| - 1;
      CandidatesMeans(ws[..n], stored);
      assert ws == ws[..n] + [ws[n]];
    }
  }

  lemma {:induction false} ConvertStep(ws: seq<Worklog>, stored: set<string>, sourceId: int, firstId: int, env: Env, now: int, i: nat)
    requires i < |ws|
    ensures Convert(ws[..i + 1], stored, sourceId, firstId, env, now) ==
      Next(Convert(ws[..i], stored, sourceId, firstId, env, now), ws[i], stored, sourceId, firstId, env, now)
  {
    assert ws[..i + 1][..i] == ws[..i];
  }

  /** Once the conversion of a prefix has failed, the whole conversion
      fails with the same error. */
  lemma {:induction false} ConvertErrPersists(ws: seq<Worklog>, stored: set<string>, sourceId: int, firstId: int, env: Env, now: int, i: nat)
    requires i <= |ws| && Convert(ws[..i], stored, sourceId, firstId, env, now).Err?
    ensures Convert(ws, stored, sourceId, firstId, env, now) == Convert(ws[..i], stored, sourceId, firstId, env, now)
    decreases |ws| - i
  {
    if i == |ws| {
      assert ws[..i] == ws;
    } else {
      ConvertStep(ws, stored, sourceId, firstId, env, now, i);
      ConvertErrPersists(ws, stored, sourceId, firstId, env, now, i + 1);
    }
  }

  /** The entries the loop has added to the database context when it
      stops: the whole batch when every new worklog converts, and otherwise
      those added before the first new worklog whose start date does not
      parse. */
  function Loaded(ws: seq<Worklog>, stored: set<string>, sourceId: int, firstId: int, env: Env, now: int): seq<ImportedEntry> {
    if |ws| == 0 then []
    else
      var n := |ws| - 1;
      var prev := Convert(ws[..n], stored, sourceId, firstId, env, now);
      if prev.Err? then Loaded(ws[..n], stored, sourceId, firstId, env, now)
      else
        var next := Next(prev, ws[n], stored, sourceId, firstId, env, now);
        if next.Ok? then next.value else prev.value
  }

  /** What the loop leaves added: an entry for each of the first new
      worklogs, in order and with consecutive keys; all of them when the
      conversion succeeds, and otherwise exactly those before the first new
      worklog whose start date does not parse, whose error is the
      conversion's. */
  lemma {:induction false} LoadedMeans(ws: seq<Worklog>, stored: set<string>, sourceId: int, firstId: int, env: Env, now: int)
    ensures var cs, t := Candidates(ws, stored), Loaded(ws, stored, sourceId, firstId, env, now);
      var conv := Convert(ws, stored, sourceId, firstId, env, now);
      && |t| <= |cs|
      && (forall k :: 0 <= k < |t| ==> EntryFor(t[k], k, cs[k], sourceId, firstId, env, now))
      && (conv.Ok? ==> t == conv.value && |t| == |cs|)
      && (conv.Err? ==> |t| < |cs| && env.parseDate(cs[|t|].startDate) == Err(conv.error))
  {
    if |ws| > 0 {
      var n := |ws| - 1;
      var prev, cs' := Convert(ws[..n], stored, sourceId, firstId, env, now), Candidates(ws[..n], stored);
      LoadedMeans(ws[..n], stored, sourceId, firstId, env, now);
      assert Convert(ws, stored, sourceId, firstId, env, now) == Next(prev, ws[n], stored, sourceId, firstId, env, now);
      assert Candidates(ws, stored) == if WorklogId(ws[n]) in stored then cs' else cs' + [ws[n]];
      if prev.Ok? && WorklogId(ws[n]) !in stored {
        LoadedTurn(prev.value, cs', ws[n], stored, sourceId, firstId, env, now);
      }
    }
  }

  /** The turn of the loop for a new worklog after an unbroken prefix. */
  lemma LoadedTurn(done: seq<ImportedEntry>, cs: seq<Worklog>, w: Worklog, stored: set<string>,
                   sourceId: int, firstId: int, env: Env, now: int)
    requires |done| == |cs| && WorklogId(w) !in stored
    requires forall k :: 0 <= k < |done| ==> EntryFor(done[k], k, cs[k], sourceId, firstId, env, now)
    ensures var next := Next(Ok(done), w, stored, sourceId, firstId, env, now);
      var t := if next.Ok? then next.value else done;
      var cs' := cs + [w];
      && (forall k :: 0 <= k < |t| ==> EntryFor(t[k], k, cs'[k], sourceId, firstId, env, now))
      && (next.Ok? ==> |t| == |cs'|)
      && (next.Err? ==> env.parseDate(cs'[|t|].startDate) == Err(next.error))
  {
    var cs' := cs + [w];
    assert forall k :: 0 <= k < |cs| ==> cs'[k] == cs[k];
    assert cs'[|cs|] == w;
  }

  lemma {:induction false} LoadedStep(ws: seq<Worklog>, stored: set<string>, sourceId: int, firstId: int, env: Env, now: int, i: nat)
    requires i < |ws|
    ensures var prev := Convert(ws[..i], stored, sourceId, firstId, env, now);
      var next := Next(prev, ws[i], stored, sourceId, firstId, env, now);
      Loaded(ws[..i + 1], stored, sourceId, firstId, env, now) ==
        if prev.Err? then Loaded(ws[..i], stored, sourceId, firstId, env, now)
        else if next.Ok? then next.value else prev.value
  {
    assert ws[..i + 1][..i] == ws[..i];
    assert ws[..i + 1][i] == ws[i];
  }

  /** Once the loop has stopped, the later worklogs add nothing. */
  lemma {:induction false} LoadedErrPersists(ws: seq<Worklog>, stored: set<string>, sourceId: int, firstId: int, env: Env, now: int, i: nat)
    requires i <= |ws| && Convert(ws[..i], stored, sourceId, firstId, env, now).Err?
    ensures Loaded(ws, stored, sourceId, firstId, env, now) == Loaded(ws[..i], stored, sourceId, firstId, env, now)
    decreases |ws| - i
  {
    if i == |ws| {
      assert ws[..i] == ws;
    } else {
      ConvertStep(ws, stored, sourceId, firstId, env, now, i);
      LoadedStep(ws, stored, sourceId, firstId, env, now, i);
      LoadedErrPersists(ws, stored, sourceId, firstId, env, now, i + 1);
    }
  }

  /** One new worklog as an entry: `BuildMetadataJson`, then the entry
      with its parsed start date. */
  method ConvertOne(w: Worklog, id: int, sourceId: int, env: Env, now: int) returns (r: Result<ImportedEntry>)
    ensures r == OneEntry(w, id, sourceId, env, now)
  {
    var en := Enrich(w, env.jira);
    var meta := BuildMetadata(w, en.customFields);
    var date := env.parseDate(w.startDate);
    if date.Err? {
      return Err(date.error);
    }
    r := Ok(ImportedEntry(id, sourceId, IntToString(w.tempoWorklogId), AccountOf(w), date.value,
                          w.timeSpentSeconds, w.description, en.projectKey, en.issueKey, None,
                          Some(meta), Pending, now, None, None, None));
  }

  /** The `foreach` loop of `ImportAsync`, up to the save: its outcome,
      and the entries it has added to the context when it stops. */
  method ConvertAll(ws: seq<Worklog>, stored: set<string>, sourceId: int, firstId: int, env: Env, now: int)
    returns (r: Result<seq<ImportedEntry>>, added: seq<ImportedEntry>)
    ensures r == Convert(ws, stored, sourceId, firstId, env, now)
    ensures added == Loaded(ws, stored, sourceId, firstId, env, now)
  {
    added := [];
    var i := 0;
    while i < |ws|
      invariant 0 <= i <= |ws|
      invariant Convert(ws[..i], stored, sourceId, firstId, env, now) == Ok(added)
    {
      ConvertStep(ws, stored, sourceId, firstId, env, now, i);
      var w := ws[i];
      var externalId := IntToString(w.tempoWorklogId);
      if externalId !in stored {
        var entry := ConvertOne(w, firstId + |added|, sourceId, env, now);
        if entry.Err? {
          ConvertStops(ws, stored, sourceId, firstId, env, now, i, added);
          return Err(entry.error), added;
        }
        added := added + [entry.value];
      }
      i := i + 1;
    }
    assert ws[..i] == ws;
    LoadedOk(ws, stored, sourceId, firstId, env, now);
    return Ok(added), added;
  }

  /** A new worklog whose start date does not parse ends the loop: the
      conversion fails with its error, and the entries added are those
      before it. */
  lemma ConvertStops(ws: seq<Worklog>, stored: set<string>, sourceId: int, firstId: int, env: Env, now: int,
                     i: nat, added: seq<ImportedEntry>)
    requires i < |ws| && Convert(ws[..i], stored, sourceId, firstId, env, now) == Ok(added)
    requires WorklogId(ws[i]) !in stored && OneEntry(ws[i], firstId + |added|, sourceId, env, now).Err?
    ensures Convert(ws, stored, sourceId, firstId, env, now) == Err(OneEntry(ws[i], firstId + |added|, sourceId, env, now).error)
    ensures Loaded(ws, stored, sourceId, firstId, env, now) == added
  {
    ConvertStep(ws, stored, sourceId, firstId, env, now, i);
    ConvertErrPersists(ws, stored, sourceId, firstId, env, now, i + 1);
    LoadedStep(ws, stored, sourceId, firstId, env, now, i);
    LoadedErrPersists(ws, stored, sourceId, firstId, env, now, i + 1);
  }

  /** When the conversion succeeds, the loop has added its whole batch. */
  lemma LoadedOk(ws: seq<Worklog>, stored: set<string>, sourceId: int, firstId: int, env: Env, now: int)
    requires Convert(ws, stored, sourceId, firstId, env, now).Ok?
    ensures Loaded(ws, stored, sourceId, firstId, env, now) == Convert(ws, stored, sourceId, firstId, env, now).value
  {
    LoadedMeans(ws, stored, sourceId, firstId, env, now);
  }

  // ------------------------------------------------------------------
  // The import
  // ------------------------------------------------------------------

  /** Why `ImportAsync` throws: the source is missing, it has no token, a
      Tempo request failed, a new worklog's start date does not parse, or
      the unique index on (source, external id) rejects the save: two new
      worklogs share an id, or, in the daily job's shared context, entries
      left in it by an earlier source do. */
  datatype TempoFailure =
    | SourceNotFound(sourceId: int)
    | NoApiToken(sourceId: int)
    | RequestFailed(message: string)
    | BadStartDate(message: string)
    | DuplicateExternalId

  /** The exception message of the two checks before the fetch. */
  function FailureMessage(f: TempoFailure): string {
    match f
    case SourceNotFound(id) => "ImportSource " + IntToString(id) + " not found."
    case NoApiToken(id) => "ImportSource " + IntToString(id) + " has no API token configured."
    case RequestFailed(m) => m
    case BadStartDate(m) => m
    case DuplicateExternalId => "duplicate external id"
  }

  /** The number of entries imported, or the exception. */
  datatype ImportOutcome = Imported(count: nat) | Threw(failure: TempoFailure)

  function ExternalIdOf(e: ImportedEntry): string { e.externalId }

  /** The part of `ImportAsync` after the fetch: the loop over the fetched
      worklogs against the ids stored before it began, and the save. */
  function ImportFetched(entries: seq<ImportedEntry>, next: int, sourceId: int, ws: seq<Worklog>, env: Env, now: int)
    : (r: (ImportOutcome, seq<ImportedEntry>))
    ensures r.0.Threw? ==> r.1 == []
    ensures r.0.Imported? ==> r.0.count == |r.1|
  {
    var converted := Convert(ws, StoredIds(entries, sourceId), sourceId, next, env, now);
    if converted.Err? then (Threw(BadStartDate(converted.error)), [])
    else if Distinct(converted.value, ExternalIdOf) then (Imported(|converted.value|), converted.value)
    else (Threw(DuplicateExternalId), [])
  }

  /** `ImportAsync(sourceId, from, to)` on the entries and sources tables
      and the next key: its outcome and the entries it adds. */
  function ImportSpec(entries: seq<ImportedEntry>, sources: seq<ImportSource>, next: int, sourceId: int,
                      from: Date, to: Date, env: Env, now: int): (r: (ImportOutcome, seq<ImportedEntry>))
    ensures r.0.Threw? ==> r.1 == []
    ensures r.0.Imported? ==> r.0.count == |r.1|
  {
    match FindIndex(sources, SourceWithId(sourceId))
    case None => (Threw(SourceNotFound(sourceId)), [])
    case Some(i) =>
      var token := sources[i].apiToken;
      if IsNullOrBlank(token) then (Threw(NoApiToken(sourceId)), [])
      else
        var fetched := Fetch(env.tempo(token.value, from, to));
        if fetched.Err? then (Threw(RequestFailed(fetched.error)), [])
        else ImportFetched(entries, next, sourceId, fetched.value, env, now)
  }

  /** The checks before the fetch: an unknown source, or one whose token is
      null or blank, throws with nothing added, whatever Tempo and Jira
      would answer. */
  lemma ImportChecksFirst(entries: seq<ImportedEntry>, sources: seq<ImportSource>, next: int, sourceId: int,
                          from: Date, to: Date, env: Env, env': Env, now: int)
    ensures (forall k :: 0 <= k < |sources| ==> sources[k].id != sourceId) ==>
      ImportSpec(entries, sources, next, sourceId, from, to, env, now) == (Threw(SourceNotFound(sourceId)), [])
    ensures forall k :: 0 <= k < |sources| && sources[k].id == sourceId && (forall j :: 0 <= j < k ==> sources[j].id != sourceId) ==>
      (IsNullOrBlank(sources[k].apiToken) ==>
        && ImportSpec(entries, sources, next, sourceId, from, to, env, now) == (Threw(NoApiToken(sourceId)), [])
        && ImportSpec(entries, sources, next, sourceId, from, to, env', now) == (Threw(NoApiToken(sourceId)), []))
  {
    forall k | 0 <= k < |sources| && sources[k].id == sourceId && (forall j :: 0 <= j < k ==> sources[j].id != sourceId)
      ensures FindIndex(sources, SourceWithId(sourceId)) == Some(k)
    {
      FindIndexIs(sources, SourceWithId(sourceId), k);
    }
  }

  /** What a successful batch adds: one Pending entry per worklog whose id
      was not stored for the source, in fetch order, keyed from `next` on,
      with distinct external ids none of which was stored. */
  lemma ImportFetchedAdds(entries: seq<ImportedEntry>, next: int, sourceId: int, ws: seq<Worklog>, env: Env, now: int)
    requires ImportFetched(entries, next, sourceId, ws, env, now).0.Imported?
    ensures var added := ImportFetched(entries, next, sourceId, ws, env, now).1;
      var cs := Candidates(ws, StoredIds(entries, sourceId));
      && |added| == |cs|
      && (forall k :: 0 <= k < |added| ==> EntryFor(added[k], k, cs[k], sourceId, next, env, now))
      && (forall k :: 0 <= k < |added| ==> added[k].sourceId == sourceId && added[k].externalId == WorklogId(cs[k]))
      && (forall k :: 0 <= k < |added| ==> added[k].externalId !in StoredIds(entries, sourceId))
      && Distinct(added, ExternalIdOf)
  {
    var stored := StoredIds(entries, sourceId);
    ConvertMeans(ws, stored, sourceId, next, env, now);
    CandidatesMeans(ws, stored);
  }

  /** `ImportAsync` adds the batch when the source is found with a token
      and the fetch succeeds; see `ImportFetchedAdds` for the batch. */
  lemma ImportAdds(entries: seq<ImportedEntry>, sources: seq<ImportSource>, next: int, sourceId: int,
                   from: Date, to: Date, env: Env, now: int, i: nat)
    requires i < |sources| && sources[i].id == sourceId && !IsNullOrBlank(sources[i].apiToken)
    requires forall j :: 0 <= j < i ==> sources[j].id != sourceId
    ensures var fetched := Fetch(env.tempo(sources[i].apiToken.value, from, to));
      ImportSpec(entries, sources, next, sourceId, from, to, env, now) ==
        if fetched.Err? then (Threw(RequestFailed(fetched.error)), [])
        else ImportFetched(entries, next, sourceId, fetched.value, env, now)
  {
    FindIndexIs(sources, SourceWithId(sourceId), i);
  }

  lemma {:induction false} NoneCandidates(ws: seq<Worklog>, stored: set<string>)
    requires forall k :: 0 <= k < |ws| ==> WorklogId(ws[k]) in stored
    ensures Candidates(ws, stored) == []
  {
    if |ws| > 0 {
      NoneCandidates(ws[..|ws| - 1], stored);
    }
  }

  /** Once a batch has been saved, the same worklogs make an empty batch. */
  lemma ReimportFetchedNone(entries: seq<ImportedEntry>, next: int, sourceId: int, ws: seq<Worklog>, env: Env, now: int, later: int)
    requires ImportFetched(entries, next, sourceId, ws, env, now).0.Imported?
    ensures var added := ImportFetched(entries, next, sourceId, ws, env, now).1;
      ImportFetched(entries + added, next + |added|, sourceId, ws, env, later) == (Imported(0), [])
  {
    var added := ImportFetched(entries, next, sourceId, ws, env, now).1;
    var stored' := StoredIds(entries + added, sourceId);
    ImportedAreStored(entries, next, sourceId, ws, env, now);
    NoneCandidates(ws, stored');
    ConvertMeans(ws, stored', sourceId, next + |added|, env, later);
  }

  /** After a batch is saved, every fetched worklog's id is stored for the
      source. */
  lemma ImportedAreStored(entries: seq<ImportedEntry>, next: int, sourceId: int, ws: seq<Worklog>, env: Env, now: int)
    requires ImportFetched(entries, next, sourceId, ws, env, now).0.Imported?
    ensures var added := ImportFetched(entries, next, sourceId, ws, env, now).1;
      forall k :: 0 <= k < |ws| ==> WorklogId(ws[k]) in StoredIds(entries + added, sourceId)
  {
    var stored := StoredIds(entries, sourceId);
    var added := ImportFetched(entries, next, sourceId, ws, env, now).1;
    var all := entries + added;
    var cs := Candidates(ws, stored);
    ImportFetchedAdds(entries, next, sourceId, ws, env, now);
    CandidatesMeans(ws, stored);
    forall k | 0 <= k < |ws| ensures WorklogId(ws[k]) in StoredIds(all, sourceId) {
      if WorklogId(ws[k]) in stored {
        var j :| 0 <= j < |entries| && entries[j].sourceId == sourceId && entries[j].externalId == WorklogId(ws[k]);
        assert all[j] == entries[j];
      } else {
        var j :| 0 <= j < |cs| && cs[j] == ws[k];
        assert all[|entries| + j] == added[j];
      }
    }
  }

  /** Once a fetch has been imported, importing the same worklogs again
      adds nothing. */
  lemma ReimportAddsNone(entries: seq<ImportedEntry>, sources: seq<ImportSource>, next: int, sourceId: int,
                         from: Date, to: Date, env: Env, now: int, later: int)
    requires ImportSpec(entries, sources, next, sourceId, from, to, env, now).0.Imported?
    ensures var added := ImportSpec(entries, sources, next, sourceId, from, to, env, now).1;
      ImportSpec(entries + added, sources, next + |added|, sourceId, from, to, env, later) == (Imported(0), [])
  {
    var i := FindIndex(sources, SourceWithId(sourceId)).value;
    var fetched := Fetch(env.tempo(sources[i].apiToken.value, from, to));
    ReimportFetchedNone(entries, next, sourceId, fetched.value, env, now, later);
  }

  /** The loop over the fetched worklogs and the save of the batch. */
  method StoreFetched(db: Db, sourceId: int, ws: seq<Worklog>, env: Env, now: int) returns (r: ImportOutcome)
    requires db.Valid()
    modifies db`entries, db`nextId
    ensures db.Valid()
    ensures var spec := ImportFetched(old(db.entries), old(db.nextId), sourceId, ws, env, now);
      && r == spec.0
      && db.entries == old(db.entries) + spec.1
      && db.nextId == old(db.nextId) + |spec.1|
  {
    var existing := StoredIds(db.entries, sourceId);
    var converted, _ := ConvertAll(ws, existing, sourceId, db.nextId, env, now);
    if converted.Err? {
      return Threw(BadStartDate(converted.error));
    }
    var added := converted.value;
    if !Distinct(added, ExternalIdOf) {
      return Threw(DuplicateExternalId);
    }
    ImportFetchedAdds(db.entries, db.nextId, sourceId, ws, env, now);
    assert Distinct(added, EntryKey) by {
      forall a, b | 0 <= a < b < |added| ensures EntryKey(added[a]) != EntryKey(added[b]) {
        assert ExternalIdOf(added[a]) != ExternalIdOf(added[b]);
      }
    }
    AppendKeepsEntriesValid(db.entries, added, sourceId, db.nextId);
    db.entries := db.entries + added;
    db.nextId := db.nextId + |added|;
    return Imported(|added|);
  }

  /** `ImportAsync`: the checks, the paged fetch, the loop over the
      worklogs, and one save of the batch. */
  method Import(db: Db, sourceId: int, from: Date, to: Date, env: Env, now: int) returns (r: ImportOutcome)
    requires db.Valid()
    modifies db`entries, db`nextId
    ensures db.Valid()
    ensures var spec := ImportSpec(old(db.entries), db.sources, old(db.nextId), sourceId, from, to, env, now);
      && r == spec.0
      && db.entries == old(db.entries) + spec.1
      && db.nextId == old(db.nextId) + |spec.1|
  {
    var found := FindIndex(db.sources, SourceWithId(sourceId));
    if found.None? {
      return Threw(SourceNotFound(sourceId));
    }
    var token := db.sources[found.value].apiToken;
    if IsNullOrBlank(token) {
      return Threw(NoApiToken(sourceId));
    }
    var fetched, _ := FetchAll(env.tempo(token.value, from, to));
    if fetched.Err? {
      return Threw(RequestFailed(fetched.error));
    }
    r := StoreFetched(db, sourceId, fetched.value, env, now);
  }

  /** Every entry an import adds belongs to the source imported, is
      Pending, and takes the next key in turn. */
  lemma ImportAddsPending(entries: seq<ImportedEntry>, sources: seq<ImportSource>, next: int, sourceId: int,
                          from: Date, to: Date, env: Env, now: int)
    ensures var added := ImportSpec(entries, sources, next, sourceId, from, to, env, now).1;
      forall k :: 0 <= k < |added| ==> added[k].sourceId == sourceId && added[k].status == Pending && added[k].id == next + k
  {
    var spec := ImportSpec(entries, sources, next, sourceId, from, to, env, now);
    if spec.0.Imported? {
      var i := FindIndex(sources, SourceWithId(sourceId)).value;
      var fetched := Fetch(env.tempo(sources[i].apiToken.value, from, to));
      ImportFetchedAdds(entries, next, sourceId, fetched.value, env, now);
    }
  }

  // ------------------------------------------------------------------
  // The daily job
  // ------------------------------------------------------------------

  /** The tables the daily job changes. */
  datatype Tables = Tables(entries: seq<ImportedEntry>, sources: seq<ImportSource>, nextId: int)

  /** The database context the daily job shares across its sources: the
      tables as committed, the entries added to the context since its last
      successful save, and the sources as the context holds them, stamps
      not yet saved included. An added entry carries the key the database
      gives it on insert; keys are handed out in the order of adding. */
  datatype Context = Context(saved: Tables, added: seq<ImportedEntry>, sources: seq<ImportSource>)

  /** A context with nothing pending, as the job starts. */
  function Fresh(t: Tables): Context {
    Context(t, [], t.sources)
  }

  /** `SaveChangesAsync` succeeds unless the entries it inserts break the
      unique index on (source, external id). */
  predicate SaveOk(c: Context) {
    Distinct(c.saved.entries + c.added, EntryKey)
  }

  /** A successful save commits the added entries and the stamps. */
  function Commit(c: Context): Context {
    Context(Tables(c.saved.entries + c.added, c.sources, c.saved.nextId + |c.added|), [], c.sources)
  }

  /** The part of `ImportAsync` after the fetch, in a shared context: the
      loop adds the new worklogs' entries to the context, and the save
      commits them together with whatever the context already held. A start
      date that does not parse throws with the entries added so far left
      in the context, and a save the unique index rejects throws with
      everything left in it. */
  function FetchedInContext(c: Context, sourceId: int, ws: seq<Worklog>, env: Env, now: int): (ImportOutcome, Context) {
    var stored := StoredIds(c.saved.entries, sourceId);
    var first := c.saved.nextId + |c.added|;
    SaveLoaded(c, Convert(ws, stored, sourceId, first, env, now), Loaded(ws, stored, sourceId, first, env, now))
  }

  /** The end of `ImportAsync` in a shared context, given the loop's
      outcome and the entries it added before stopping. */
  function SaveLoaded(c: Context, converted: Result<seq<ImportedEntry>>, loaded: seq<ImportedEntry>): (ImportOutcome, Context) {
    var tracked := c.(added := c.added + loaded);
    if converted.Err? then (Threw(BadStartDate(converted.error)), tracked)
    else if |converted.value| == 0 then (Imported(0), c)
    else if SaveOk(tracked) then (Imported(|converted.value|), Commit(tracked))
    else (Threw(DuplicateExternalId), tracked)
  }

  /** `ImportAsync(sourceId, day, day)` in the job's shared context. */
  function ImportInContext(c: Context, sourceId: int, day: Date, env: Env, now: int): (ImportOutcome, Context) {
    match FindIndex(c.saved.sources, SourceWithId(sourceId))
    case None => (Threw(SourceNotFound(sourceId)), c)
    case Some(i) =>
      var token := c.saved.sources[i].apiToken;
      if IsNullOrBlank(token) then (Threw(NoApiToken(sourceId)), c)
      else
        var fetched := Fetch(env.tempo(token.value, day, day));
        if fetched.Err? then (Threw(RequestFailed(fetched.error)), c)
        else FetchedInContext(c, sourceId, fetched.value, env, now)
  }

  /** `s` is `t` followed by entries of the given source. */
  predicate Extends(t: seq<ImportedEntry>, s: seq<ImportedEntry>, sourceId: int) {
    |t| <= |s| && s[..|t|] == t && forall k :: |t| <= k < |s| ==> s[k].sourceId == sourceId
  }

  /** How one import may leave the shared context `c`, with outcome and
      context `r`; see `ImportInContextEffect`. */
  predicate ContextEffect(c: Context, r: (ImportOutcome, Context), sourceId: int) {
      && r.1.sources == c.sources
      && (r.0.Threw? ==> r.1.saved == c.saved && Extends(c.added, r.1.added, sourceId))
      && (r.0 == Imported(0) ==> r.1 == c)
      && (r.0.Imported? && r.0.count > 0 ==>
            && SaveOk(c) && r.1.added == []
            && r.1.saved.sources == c.sources
            && Extends(c.saved.entries + c.added, r.1.saved.entries, sourceId)
            && |r.1.saved.entries| == |c.saved.entries| + |c.added| + r.0.count
            && r.1.saved.nextId == c.saved.nextId + |c.added| + r.0.count)
  }

  /** What an import does to the shared context. Its stamps are not
      touched. When it throws, nothing is committed and the context keeps
      what it held, followed by the entries of the source it added before
      throwing. When it imports nothing, nothing changes. When it imports
      something, the save commits what the context held first, then the
      source's new entries, under the keys that follow. */
  lemma ImportInContextEffect(c: Context, sourceId: int, day: Date, env: Env, now: int)
    ensures ContextEffect(c, ImportInContext(c, sourceId, day, env, now), sourceId)
  {
    var r := ImportInContext(c, sourceId, day, env, now);
    match FindIndex(c.saved.sources, SourceWithId(sourceId))
    case None =>
      assert c.added[..|c.added|] == c.added;
    case Some(i) =>
      var token := c.saved.sources[i].apiToken;
      if IsNullOrBlank(token) || Fetch(env.tempo(token.value, day, day)).Err? {
        assert c.added[..|c.added|] == c.added;
      } else {
        FetchedInContextEffect(c, sourceId, Fetch(env.tempo(token.value, day, day)).value, env, now);
      }
  }

  lemma FetchedInContextEffect(c: Context, sourceId: int, ws: seq<Worklog>, env: Env, now: int)
    ensures ContextEffect(c, FetchedInContext(c, sourceId, ws, env, now), sourceId)
  {
    var stored := StoredIds(c.saved.entries, sourceId);
    var first := c.saved.nextId + |c.added|;
    var converted := Convert(ws, stored, sourceId, first, env, now);
    var loaded := Loaded(ws, stored, sourceId, first, env, now);
    FetchedInContextIs(c, sourceId, ws, env, now, converted, loaded);
    LoadedMeans(ws, stored, sourceId, first, env, now);
    LoadedOfSource(ws, stored, sourceId, first, env, now);
    SaveLoadedEffect(c, converted, loaded, sourceId);
  }

  /** The save's effect, for a loop whose entries are all of the source and
      are the whole batch when it succeeds. */
  lemma SaveLoadedEffect(c: Context, converted: Result<seq<ImportedEntry>>, loaded: seq<ImportedEntry>, sourceId: int)
    requires forall k :: 0 <= k < |loaded| ==> loaded[k].sourceId == sourceId
    requires converted.Ok? ==> converted.value == loaded
    ensures ContextEffect(c, SaveLoaded(c, converted, loaded), sourceId)
  {
    ExtendsAppend(c.added, loaded, sourceId);
    var held := c.saved.entries + c.added;
    assert c.saved.entries + (c.added + loaded) == held + loaded;
    if Distinct(held + loaded, EntryKey) {
      DistinctPrefix(held, loaded, EntryKey);
      ExtendsAppend(held, loaded, sourceId);
    }
  }

  /** A sequence followed by entries of the source extends it. */
  lemma ExtendsAppend(t: seq<ImportedEntry>, u: seq<ImportedEntry>, sourceId: int)
    requires forall k :: 0 <= k < |u| ==> u[k].sourceId == sourceId
    ensures Extends(t, t + u, sourceId)
  {
    assert (t + u)[..|t|] == t;
    assert forall k :: |t| <= k < |t + u| ==> (t + u)[k] == u[k - |t|];
  }

  /** A start date that does not parse leaves in the context, after what
      it held, the entries of the new worklogs before the one that failed,
      in order and under the keys that follow, with nothing committed. */
  lemma BadStartDateLeavesPrefix(c: Context, sourceId: int, ws: seq<Worklog>, env: Env, now: int)
    requires FetchedInContext(c, sourceId, ws, env, now).0.Threw?
    requires FetchedInContext(c, sourceId, ws, env, now).0.failure.BadStartDate?
    ensures var r := FetchedInContext(c, sourceId, ws, env, now);
      var cs := Candidates(ws, StoredIds(c.saved.entries, sourceId));
      var m := |r.1.added| - |c.added|;
      && r.1.saved == c.saved && |c.added| <= |r.1.added| && r.1.added[..|c.added|] == c.added
      && 0 <= m < |cs| && env.parseDate(cs[m].startDate) == Err(r.0.failure.message)
      && forall k :: 0 <= k < m ==> EntryFor(r.1.added[|c.added| + k], k, cs[k], sourceId, c.saved.nextId + |c.added|, env, now)
  {
    var stored := StoredIds(c.saved.entries, sourceId);
    var first := c.saved.nextId + |c.added|;
    var converted := Convert(ws, stored, sourceId, first, env, now);
    var loaded := Loaded(ws, stored, sourceId, first, env, now);
    FetchedInContextIs(c, sourceId, ws, env, now, converted, loaded);
    assert converted.Err?;
    LoadedMeans(ws, stored, sourceId, first, env, now);
    var pending := c.added + loaded;
    assert FetchedInContext(c, sourceId, ws, env, now).1.added == pending;
    assert pending[..|c.added|] == c.added;
    assert forall k :: 0 <= k < |loaded| ==> pending[|c.added| + k] == loaded[k];
  }

  /** Every entry the loop adds belongs to the source imported and takes
      the next key in turn. */
  lemma LoadedOfSource(ws: seq<Worklog>, stored: set<string>, sourceId: int, firstId: int, env: Env, now: int)
    ensures var t := Loaded(ws, stored, sourceId, firstId, env, now);
      forall k :: 0 <= k < |t| ==> t[k].sourceId == sourceId && t[k].id == firstId + k
  {
    LoadedMeans(ws, stored, sourceId, firstId, env, now);
  }

  /** A key-distinct sequence has key-distinct prefixes. */
  lemma DistinctPrefix<T, K>(s: seq<T>, t: seq<T>, key: T -> K)
    requires Distinct(s + t, key)
    ensures Distinct(s, key)
  {
    forall i, j | 0 <= i < j < |s| ensures key(s[i]) != key(s[j]) {
      assert (s + t)[i] == s[i] && (s + t)[j] == s[j];
    }
  }

  /** In a fresh context, an import has the outcome of the stand-alone
      `ImportAsync`: on success the batch is committed and the context is
      fresh again, and when it throws nothing is committed, though its
      partial batch stays in the context. */
  lemma FreshImportIsImport(t: Tables, sourceId: int, day: Date, env: Env, now: int)
    requires Distinct(t.entries, EntryKey)
    ensures var spec := ImportSpec(t.entries, t.sources, t.nextId, sourceId, day, day, env, now);
      var r := ImportInContext(Fresh(t), sourceId, day, env, now);
      && r.0 == spec.0
      && (r.0.Imported? ==> r.1 == Fresh(Tables(t.entries + spec.1, t.sources, t.nextId + |spec.1|)))
      && (r.0.Threw? ==> r.1.saved == t)
  {
    var spec := ImportSpec(t.entries, t.sources, t.nextId, sourceId, day, day, env, now);
    ImportInContextEffect(Fresh(t), sourceId, day, env, now);
    match FindIndex(t.sources, SourceWithId(sourceId))
    case None =>
    case Some(i) =>
      var token := t.sources[i].apiToken;
      if !IsNullOrBlank(token) {
        var fetched := Fetch(env.tempo(token.value, day, day));
        if fetched.Ok? {
          FreshFetchedIsFetched(t, sourceId, fetched.value, env, now);
        }
      }
  }

  lemma FreshFetchedIsFetched(t: Tables, sourceId: int, ws: seq<Worklog>, env: Env, now: int)
    requires Distinct(t.entries, EntryKey)
    ensures var spec := ImportFetched(t.entries, t.nextId, sourceId, ws, env, now);
      var r := FetchedInContext(Fresh(t), sourceId, ws, env, now);
      && r.0 == spec.0
      && (r.0.Imported? ==> r.1 == Fresh(Tables(t.entries + spec.1, t.sources, t.nextId + |spec.1|)))
  {
    var stored := StoredIds(t.entries, sourceId);
    var converted := Convert(ws, stored, sourceId, t.nextId, env, now);
    var loaded := Loaded(ws, stored, sourceId, t.nextId, env, now);
    FetchedInContextIs(Fresh(t), sourceId, ws, env, now, converted, loaded);
    if converted.Ok? {
      LoadedMeans(ws, stored, sourceId, t.nextId, env, now);
      ConvertedBatch(ws, stored, sourceId, t.nextId, env, now);
      BatchSaveOk(t.entries, converted.value, sourceId);
      FreshSave(t, converted.value);
    }
  }

  /** The save of a whole batch in a fresh context. */
  lemma FreshSave(t: Tables, batch: seq<ImportedEntry>)
    requires Distinct(t.entries + batch, EntryKey) <==> Distinct(batch, ExternalIdOf)
    ensures var r := SaveLoaded(Fresh(t), Ok(batch), batch);
      && r.0 == (if |batch| == 0 then Imported(0) else if Distinct(batch, ExternalIdOf) then Imported(|batch|) else Threw(DuplicateExternalId))
      && (r.0.Imported? ==> r.1 == Fresh(Tables(t.entries + batch, t.sources, t.nextId + |batch|)))
  {
    assert [] + batch == batch;
    if |batch| == 0 {
      assert t.entries + batch == t.entries;
    }
  }

  /** A conversion that succeeds gives entries of the source whose ids
      are not stored. */
  lemma ConvertedBatch(ws: seq<Worklog>, stored: set<string>, sourceId: int, firstId: int, env: Env, now: int)
    requires Convert(ws, stored, sourceId, firstId, env, now).Ok?
    ensures var b := Convert(ws, stored, sourceId, firstId, env, now).value;
      forall k :: 0 <= k < |b| ==> b[k].sourceId == sourceId && b[k].externalId !in stored
  {
    ConvertMeans(ws, stored, sourceId, firstId, env, now);
    CandidatesMeans(ws, stored);
  }

  /** A batch of one source's entries, none of whose ids is stored, can be
      saved exactly when its ids are distinct. */
  lemma BatchSaveOk(entries: seq<ImportedEntry>, batch: seq<ImportedEntry>, sourceId: int)
    requires Distinct(entries, EntryKey)
    requires forall k :: 0 <= k < |batch| ==> batch[k].sourceId == sourceId && batch[k].externalId !in StoredIds(entries, sourceId)
    ensures Distinct(entries + batch, EntryKey) <==> Distinct(batch, ExternalIdOf)
  {
    var all := entries + batch;
    if Distinct(batch, ExternalIdOf) {
      assert Distinct(batch, EntryKey) by {
        forall i, j | 0 <= i < j < |batch| ensures EntryKey(batch[i]) != EntryKey(batch[j]) {
          assert ExternalIdOf(batch[i]) != ExternalIdOf(batch[j]);
        }
      }
      forall i, j | 0 <= i < |entries| && 0 <= j < |batch| ensures EntryKey(entries[i]) != EntryKey(batch[j]) {
        if entries[i].sourceId == sourceId {
          assert entries[i].externalId in StoredIds(entries, sourceId);
        }
      }
      DistinctConcat(entries, batch, EntryKey);
    } else {
      var i, j :| 0 <= i < j < |batch| && ExternalIdOf(batch[i]) == ExternalIdOf(batch[j]);
      assert all[|entries| + i] == batch[i] && all[|entries| + j] == batch[j];
    }
  }

  /** Once a save has been rejected, nothing more is committed: every later
      import either imports nothing or throws, the context keeps the entries
      that broke the index, and the final save of the job throws too. */
  lemma {:induction false} PoisonedJob(c: Context, targets: seq<int>, day: Date, env: Env, now: int)
    requires !SaveOk(c)
    ensures var r := PollAll(c, targets, day, env, now);
      r.saved == c.saved && !SaveOk(r) && Finish(r) == (true, r)
    decreases |targets|
  {
    if |targets| > 0 {
      ImportInContextEffect(c, targets[0], day, env, now);
      PoisonStays(c, ImportInContext(c, targets[0], day, env, now), targets[0]);
      PoisonedJob(PollOne(c, targets[0], day, env, now), targets[1..], day, env, now);
    }
  }

  /** One import in a context the unique index already rejects commits
      nothing and leaves it rejected. */
  lemma PoisonStays(c: Context, r: (ImportOutcome, Context), sourceId: int)
    requires !SaveOk(c) && ContextEffect(c, r, sourceId)
    ensures r.1.saved == c.saved && !SaveOk(r.1)
  {
    if r.0.Threw? {
      var tail := r.1.added[|c.added|..];
      assert r.1.added == c.added + tail;
      assert r.1.saved.entries + r.1.added == (c.saved.entries + c.added) + tail;
      if SaveOk(r.1) {
        DistinctPrefix(c.saved.entries + c.added, tail, EntryKey);
      }
    }
  }

  /** The sources the daily job imports: enabled Tempo sources. */
  predicate IsTempoTarget(s: ImportSource) {
    s.sourceType == Tempo && s.isEnabled
  }

  /** The ids of the enabled Tempo sources, in table order. */
  function TempoTargets(sources: seq<ImportSource>): (ids: seq<int>)
    ensures forall id :: id in ids <==> exists k :: 0 <= k < |sources| && sources[k].id == id && IsTempoTarget(sources[k])
  {
    if |sources| == 0 then []
    else
      var n := |sources| - 1;
      var prev := TempoTargets(sources[..n]);
      assert forall k :: 0 <= k < n ==> sources[..n][k] == sources[k];
      if IsTempoTarget(sources[n]) then prev + [sources[n].id] else prev
  }

  /** One source of the daily job: the import in the shared context, and,
      when it did not throw, the source's stamp, left in the context for a
      later save. */
  function PollOne(c: Context, sourceId: int, day: Date, env: Env, now: int): Context {
    var r := ImportInContext(c, sourceId, day, env, now);
    if r.0.Imported? then r.1.(sources := MarkPolled(r.1.sources, sourceId, now)) else r.1
  }

  /** The `foreach` of the daily job over the given sources, in order. */
  function PollAll(c: Context, targets: seq<int>, day: Date, env: Env, now: int): Context
    decreases |targets|
  {
    if |targets| == 0 then c else PollAll(PollOne(c, targets[0], day, env, now), targets[1..], day, env, now)
  }

  /** The job's last `SaveChangesAsync`: whether it throws, and the context
      after it. */
  function Finish(c: Context): (bool, Context) {
    if SaveOk(c) then (false, Commit(c)) else (true, c)
  }

  /** A source stamped, or left as it was. */
  predicate Stamped(before: ImportSource, after: ImportSource, targets: seq<int>, now: int) {
    after == before || (before.id in targets && after == before.(lastPolledAt := Some(now)))
  }

  /** Sources that differ from `before` at most by stamps on the targets. */
  predicate SourcesStamped(before: seq<ImportSource>, after: seq<ImportSource>, targets: seq<int>, now: int) {
    |after| == |before| && forall k :: 0 <= k < |before| ==> Stamped(before[k], after[k], targets, now)
  }

  /** `s` is `t` followed by entries of the targets. */
  predicate AppendedFrom(t: seq<ImportedEntry>, s: seq<ImportedEntry>, targets: seq<int>) {
    |t| <= |s| && s[..|t|] == t && forall k :: |t| <= k < |s| ==> s[k].sourceId in targets
  }

  /** How far the job has moved from the tables `t` it started on: entries
      of the targets appended to the committed table, the pending entries
      all of the targets, keys handed out upwards, and sources, committed or
      held, changed only by stamps on the targets. */
  predicate InFrame(t: Tables, c: Context, targets: seq<int>, now: int) {
    && AppendedFrom(t.entries, c.saved.entries, targets)
    && (forall k :: 0 <= k < |c.added| ==> c.added[k].sourceId in targets)
    && t.nextId <= c.saved.nextId
    && SourcesStamped(t.sources, c.saved.sources, targets, now)
    && SourcesStamped(t.sources, c.sources, targets, now)
  }

  /** Stamping a visited source keeps the sources within the frame. */
  lemma MarkPolledStamped(t: seq<ImportSource>, s: seq<ImportSource>, sourceId: int, targets: seq<int>, now: int)
    requires SourcesStamped(t, s, targets, now) && sourceId in targets
    ensures SourcesStamped(t, MarkPolled(s, sourceId, now), targets, now)
  {
    var r := MarkPolled(s, sourceId, now);
    forall k | 0 <= k < |t| ensures Stamped(t[k], r[k], targets, now) {
      assert Stamped(t[k], s[k], targets, now);
      assert s[k].id == t[k].id;
    }
  }

  /** One source, visited from the targets, keeps the job within its
      frame. */
  lemma PollOneInFrame(t: Tables, c: Context, sourceId: int, targets: seq<int>, day: Date, env: Env, now: int)
    requires InFrame(t, c, targets, now) && sourceId in targets
    ensures InFrame(t, PollOne(c, sourceId, day, env, now), targets, now)
  {
    var r := ImportInContext(c, sourceId, day, env, now);
    ImportInContextEffect(c, sourceId, day, env, now);
    if r.0.Threw? {
      forall k | 0 <= k < |r.1.added| ensures r.1.added[k].sourceId in targets {
        if k < |c.added| {
          assert r.1.added[k] == r.1.added[..|c.added|][k];
        }
      }
    } else {
      if r.0.count > 0 {
        var held := c.saved.entries + c.added;
        var s := r.1.saved.entries;
        assert s[..|t.entries|] == held[..|t.entries|] == t.entries by {
          assert s[..|held|][..|t.entries|] == s[..|t.entries|];
          assert held[..|c.saved.entries|] == c.saved.entries;
          assert c.saved.entries[..|t.entries|] == t.entries;
        }
        forall k | |t.entries| <= k < |s| ensures s[k].sourceId in targets {
          if k < |c.saved.entries| {
            assert s[k] == held[k] == c.saved.entries[k];
          } else if k < |held| {
            assert s[k] == s[..|held|][k] == held[k] == c.added[k - |c.saved.entries|];
          }
        }
      }
      MarkPolledStamped(t.sources, r.1.sources, sourceId, targets, now);
    }
  }

  /** The job over part of the targets keeps it within the frame. */
  lemma {:induction false} PollAllInFrame(t: Tables, c: Context, visit: seq<int>, targets: seq<int>, day: Date, env: Env, now: int)
    requires InFrame(t, c, targets, now) && forall x :: x in visit ==> x in targets
    ensures InFrame(t, PollAll(c, visit, day, env, now), targets, now)
    decreases |visit|
  {
    if |visit| > 0 {
      PollOneInFrame(t, c, visit[0], targets, day, env, now);
      assert forall x :: x in visit[1..] ==> x in visit;
      PollAllInFrame(t, PollOne(c, visit[0], day, env, now), visit[1..], targets, day, env, now);
    }
  }

  /** The daily job only appends entries, each of one of the sources it
      imports, hands out keys upwards, and changes no source other than by
      stamping one of those it imports, whether or not its last save
      throws. */
  lemma PollAllTouches(t: Tables, targets: seq<int>, day: Date, env: Env, now: int)
    ensures var r := Finish(PollAll(Fresh(t), targets, day, env, now)).1.saved;
      && AppendedFrom(t.entries, r.entries, targets)
      && t.nextId <= r.nextId
      && SourcesStamped(t.sources, r.sources, targets, now)
  {
    assert t.entries[..|t.entries|] == t.entries;
    assert SourcesStamped(t.sources, t.sources, targets, now);
    PollAllInFrame(t, Fresh(t), targets, targets, day, env, now);
    var c := PollAll(Fresh(t), targets, day, env, now);
    if SaveOk(c) {
      var s := c.saved.entries + c.added;
      assert s[..|t.entries|] == t.entries by {
        assert s[..|c.saved.entries|] == c.saved.entries;
        assert c.saved.entries[..|t.entries|] == t.entries;
      }
      forall k | |t.entries| <= k < |s| ensures s[k].sourceId in targets {
        if k >= |c.saved.entries| {
          assert s[k] == c.added[k - |c.saved.entries|];
        }
      }
    }
  }

  lemma PollAllStep(c: Context, targets: seq<int>, i: nat, day: Date, env: Env, now: int)
    requires i < |targets|
    ensures PollAll(c, targets[i..], day, env, now) == PollAll(PollOne(c, targets[i], day, env, now), targets[i + 1..], day, env, now)
  {
    assert targets[i..][1..] == targets[i + 1..];
  }

  /** How the job's context stands between saves: the pending entries take
      the keys that follow the committed ones, and the sources it holds keep
      the table's keys. */
  predicate BetweenSaves(next: int, added: seq<ImportedEntry>, held: seq<ImportSource>) {
    (forall k :: 0 <= k < |added| ==> added[k].id == next + k) && SourcesValid(held, next)
  }

  /** Entries added under the keys that follow the pending ones keep the
      context between saves. */
  lemma PendingAppend(next: int, added: seq<ImportedEntry>, loaded: seq<ImportedEntry>, held: seq<ImportSource>)
    requires BetweenSaves(next, added, held)
    requires forall k :: 0 <= k < |loaded| ==> loaded[k].id == next + |added| + k
    ensures BetweenSaves(next, added + loaded, held)
  {
    assert forall k :: |added| <= k < |added + loaded| ==> (added + loaded)[k] == loaded[k - |added|];
  }

  /** Committing pending entries the unique index accepts keeps the entries
      table valid. */
  lemma CommitKeepsEntriesValid(entries: seq<ImportedEntry>, added: seq<ImportedEntry>, next: int)
    requires EntriesValid(entries, next) && Distinct(entries + added, EntryKey)
    requires forall k :: 0 <= k < |added| ==> added[k].id == next + k
    ensures EntriesValid(entries + added, next + |added|)
  {
    assert Distinct(added, EntryId);
    forall i, j | 0 <= i < |entries| && 0 <= j < |added| ensures EntryId(entries[i]) != EntryId(added[j]) {
      assert entries[i].id < next;
    }
    DistinctConcat(entries, added, EntryId);
  }

  /** `ImportAsync` as the daily job runs it, in the shared context: the
      pending entries and the held sources are the context's, and only a
      successful save changes the database. */
  method ImportTracked(db: Db, added: seq<ImportedEntry>, held: seq<ImportSource>, sourceId: int, day: Date, env: Env, now: int)
    returns (r: ImportOutcome, added': seq<ImportedEntry>)
    requires db.Valid() && BetweenSaves(db.nextId, added, held)
    modifies db`entries, db`sources, db`nextId
    ensures db.Valid() && BetweenSaves(db.nextId, added', held)
    ensures (r, Context(Tables(db.entries, db.sources, db.nextId), added', held))
         == ImportInContext(Context(Tables(old(db.entries), old(db.sources), old(db.nextId)), added, held), sourceId, day, env, now)
  {
    var found := FindIndex(db.sources, SourceWithId(sourceId));
    if found.None? {
      return Threw(SourceNotFound(sourceId)), added;
    }
    var token := db.sources[found.value].apiToken;
    if IsNullOrBlank(token) {
      return Threw(NoApiToken(sourceId)), added;
    }
    var fetched, _ := FetchAll(env.tempo(token.value, day, day));
    if fetched.Err? {
      return Threw(RequestFailed(fetched.error)), added;
    }
    r, added' := StoreTracked(db, added, held, sourceId, fetched.value, env, now);
  }

  /** The loop and the save of `ImportAsync` in the shared context. */
  method StoreTracked(db: Db, added: seq<ImportedEntry>, held: seq<ImportSource>, sourceId: int, ws: seq<Worklog>, env: Env, now: int)
    returns (r: ImportOutcome, added': seq<ImportedEntry>)
    requires db.Valid() && BetweenSaves(db.nextId, added, held)
    modifies db`entries, db`sources, db`nextId
    ensures db.Valid() && BetweenSaves(db.nextId, added', held)
    ensures (r, Context(Tables(db.entries, db.sources, db.nextId), added', held))
         == FetchedInContext(Context(Tables(old(db.entries), old(db.sources), old(db.nextId)), added, held), sourceId, ws, env, now)
  {
    ghost var c := Context(Tables(db.entries, db.sources, db.nextId), added, held);
    var existing := StoredIds(db.entries, sourceId);
    var converted, loaded := ConvertAll(ws, existing, sourceId, db.nextId + |added|, env, now);
    TrackedLoop(c, sourceId, ws, env, now, converted, loaded);
    r, added' := SaveTracked(db, added, held, converted, loaded);
  }

  /** What the loop leaves for the save: the import's end in terms of the
      loop's results, with the added entries under the keys that follow. */
  lemma TrackedLoop(c: Context, sourceId: int, ws: seq<Worklog>, env: Env, now: int,
                    converted: Result<seq<ImportedEntry>>, loaded: seq<ImportedEntry>)
    requires BetweenSaves(c.saved.nextId, c.added, c.sources)
    requires converted == Convert(ws, StoredIds(c.saved.entries, sourceId), sourceId, c.saved.nextId + |c.added|, env, now)
    requires loaded == Loaded(ws, StoredIds(c.saved.entries, sourceId), sourceId, c.saved.nextId + |c.added|, env, now)
    ensures FetchedInContext(c, sourceId, ws, env, now) == SaveLoaded(c, converted, loaded)
    ensures BetweenSaves(c.saved.nextId, c.added + loaded, c.sources)
  {
    FetchedInContextIs(c, sourceId, ws, env, now, converted, loaded);
    LoadedOfSource(ws, StoredIds(c.saved.entries, sourceId), sourceId, c.saved.nextId + |c.added|, env, now);
    PendingAppend(c.saved.nextId, c.added, loaded, c.sources);
  }

  /** The end of `ImportAsync` in the shared context: a failed loop throws
      with its entries left pending, an empty batch saves nothing, and
      otherwise the save commits everything pending or is rejected. */
  method SaveTracked(db: Db, added: seq<ImportedEntry>, held: seq<ImportSource>,
                     converted: Result<seq<ImportedEntry>>, loaded: seq<ImportedEntry>)
    returns (r: ImportOutcome, added': seq<ImportedEntry>)
    requires db.Valid() && BetweenSaves(db.nextId, added, held) && BetweenSaves(db.nextId, added + loaded, held)
    modifies db`entries, db`sources, db`nextId
    ensures db.Valid() && BetweenSaves(db.nextId, added', held)
    ensures (r, Context(Tables(db.entries, db.sources, db.nextId), added', held))
         == SaveLoaded(Context(Tables(old(db.entries), old(db.sources), old(db.nextId)), added, held), converted, loaded)
  {
    var pending := added + loaded;
    if converted.Err? {
      return Threw(BadStartDate(converted.error)), pending;
    }
    if |converted.value| == 0 {
      return Imported(0), added;
    }
    if !Distinct(db.entries + pending, EntryKey) {
      return Threw(DuplicateExternalId), pending;
    }
    SaveContext(db, pending, held);
    return Imported(|converted.value|), [];
  }

  /** A successful `SaveChangesAsync` of the shared context: the pending
      entries are inserted under their keys and the held sources written
      back. */
  method SaveContext(db: Db, pending: seq<ImportedEntry>, held: seq<ImportSource>)
    requires db.Valid() && BetweenSaves(db.nextId, pending, held)
    requires Distinct(db.entries + pending, EntryKey)
    modifies db`entries, db`sources, db`nextId
    ensures db.Valid()
    ensures db.entries == old(db.entries) + pending && db.sources == held && db.nextId == old(db.nextId) + |pending|
  {
    CommitKeepsEntriesValid(db.entries, pending, db.nextId);
    db.entries := db.entries + pending;
    db.sources := held;
    db.nextId := db.nextId + |pending|;
  }

  /** `FetchedInContext` in terms of the loop's two results. */
  lemma FetchedInContextIs(c: Context, sourceId: int, ws: seq<Worklog>, env: Env, now: int,
                           converted: Result<seq<ImportedEntry>>, loaded: seq<ImportedEntry>)
    requires converted == Convert(ws, StoredIds(c.saved.entries, sourceId), sourceId, c.saved.nextId + |c.added|, env, now)
    requires loaded == Loaded(ws, StoredIds(c.saved.entries, sourceId), sourceId, c.saved.nextId + |c.added|, env, now)
    ensures FetchedInContext(c, sourceId, ws, env, now) == SaveLoaded(c, converted, loaded)
  {
  }

  /** The body of the `foreach` of `ImportYesterdayAsync`: the import in
      the shared context, and the stamp when it did not throw. */
  method PollSource(db: Db, added: seq<ImportedEntry>, held: seq<ImportSource>, sourceId: int, day: Date, env: Env, now: int)
    returns (added': seq<ImportedEntry>, held': seq<ImportSource>)
    requires db.Valid() && BetweenSaves(db.nextId, added, held)
    modifies db`entries, db`sources, db`nextId
    ensures db.Valid() && BetweenSaves(db.nextId, added', held')
    ensures Context(Tables(db.entries, db.sources, db.nextId), added', held')
         == PollOne(Context(Tables(old(db.entries), old(db.sources), old(db.nextId)), added, held), sourceId, day, env, now)
  {
    var outcome;
    outcome, added' := ImportTracked(db, added, held, sourceId, day, env, now);
    held' := held;
    if outcome.Imported? {
      MarkPolledKeepsValid(held, sourceId, now, db.nextId);
      held' := MarkPolled(held, sourceId, now);
    }
  }

  /** `ImportYesterdayAsync`: imports the previous day for every enabled
      Tempo source in turn in one shared context; a source whose import
      throws is skipped and the others still run, and only a source
      imported without an exception gets its LastPolledAt stamped. The last
      save commits what the context still holds, or throws, and then the
      job throws. */
  method ImportYesterday(db: Db, yesterday: Date, env: Env, now: int) returns (threw: bool)
    requires db.Valid()
    modifies db`entries, db`nextId, db`sources
    ensures db.Valid()
    ensures var f := Finish(PollAll(Fresh(Tables(old(db.entries), old(db.sources), old(db.nextId))),
                                    TempoTargets(old(db.sources)), yesterday, env, now));
      threw == f.0 && Tables(db.entries, db.sources, db.nextId) == f.1.saved
  {
    var targets := TempoTargets(db.sources);
    ghost var goal := PollAll(Fresh(Tables(db.entries, db.sources, db.nextId)), targets, yesterday, env, now);
    var added: seq<ImportedEntry> := [];
    var held := db.sources;
    var i := 0;
    while i < |targets|
      invariant 0 <= i <= |targets|
      invariant db.Valid() && BetweenSaves(db.nextId, added, held)
      invariant PollAll(Context(Tables(db.entries, db.sources, db.nextId), added, held), targets[i..], yesterday, env, now) == goal
    {
      PollAllStep(Context(Tables(db.entries, db.sources, db.nextId), added, held), targets, i, yesterday, env, now);
      added, held := PollSource(db, added, held, targets[i], yesterday, env, now);
      i := i + 1;
    }
    assert targets[i..] == [];
    if !Distinct(db.entries + added, EntryKey) {
      return true;
    }
    SaveContext(db, added, held);
    return false;
  }
}
