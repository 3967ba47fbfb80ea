/** An item one of whose listed types reads, ignoring case, as the type of another kind. */
module LookalikeItems {
  import opened Fields
  import opened Json
  import opened ItemStore
  import opened ItemService
  import opened SampleRequests
  import opened StoreSteps
  import opened StoreStatus
  import Apps = AppsItem
  import Elastic
  import Factory = ItemFactory
  import Text

  const LOOKALIKE := "ADEX:AIMODEL"
  const PUBLISHED := "PUBLISHED"

  /** Apps first, then the look-alike of an AI model. */
  const MIXED_TYPES: seq<Json> := [JStr(APPS), JStr(LOOKALIKE)]

  const UPLOADED_AND_PUBLISHED: Object := map[PUBLISH_STATUS := JStr(PUBLISHED), DATA_UPLOAD_STATUS := JBool(true)]

  function ModelOp(post: bool, id: string, name: string, stamp: Stamp): Op {
    Submit(Factory.AiModel, post, ModelRequest(id, name, map[]), stamp)
  }

  function MixedBody(id: string, name: string): Object {
    AppsRequest(id, name, MIXED_TYPES, UPLOADED_AND_PUBLISHED)
  }

  function MixedOp(id: string, name: string, stamp: Stamp): Op {
    Submit(Factory.AppsKind, true, MixedBody(id, name), stamp)
  }

  // ---------------------------------------------------------------- the types

  lemma LookalikeReadsAsModel()
    ensures Text.EqualsIgnoreCase(LOOKALIKE, AI_MODEL)
  {
    var a, b := Text.ToLower(LOOKALIKE), Text.ToLower(AI_MODEL);
    assert forall i | 0 <= i < 12 :: a[i] == b[i];
    assert a == b;
  }

  lemma MixedDoesNotMention()
    ensures !Text.Contains(APPS, AI_MODEL) && !Text.Contains(LOOKALIKE, AI_MODEL)
  {
    assert AI_MODEL[6] == 'i';
    Text.LacksLetter(APPS, AI_MODEL, 6);
    Text.LacksLetter(LOOKALIKE, AI_MODEL, 6);
  }

  lemma MixedIsRouted(body: Object)
    requires Get(body, TYPE) == JArr(MIXED_TYPES)
    ensures KindOf(body) == Some(Factory.AppsKind)
  {
    forall t | t in ITEM_TYPES && JStr(t) in MIXED_TYPES
      ensures t == APPS
    {
      ItemTypesAreLowerCase(t);
    }
    RoutedOnly(body, Factory.AppsKind);
  }

  lemma MixedValues(d: Object)
    requires Get(d, TYPE) == JArr(MIXED_TYPES)
    ensures LOOKALIKE in Elastic.Values(d, TYPE)
  {
    TypeField(d);
    ListedIsIndexed(MIXED_TYPES, LOOKALIKE);
  }

  lemma ModelValues(d: Object)
    requires Get(d, TYPE) == JArr([JStr(AI_MODEL)])
    ensures Elastic.Values(d, TYPE) == [AI_MODEL]
  {
    var types := [JStr(AI_MODEL)];
    TypeField(d);
    assert types[1..] == [];
    assert Elastic.Scalars(types[0]) == [AI_MODEL];
    assert Elastic.AllScalars(types) == Elastic.Scalars(types[0]) + Elastic.AllScalars(types[1..]);
  }

  // ---------------------------------------------------------------- what the creates leave

  /** A stored AI model: pending, and without media. */
  ghost predicate StoredModel(d: Object, id: string, name: string) {
    && Get(d, ID) == JStr(id) && Get(d, NAME) == JStr(name) && Get(d, TYPE) == JArr([JStr(AI_MODEL)])
    && Get(d, PUBLISH_STATUS) == JStr(PENDING) && Get(d, DATA_UPLOAD_STATUS) == JBool(false)
  }

  /** A stored item that the name query takes for an AI model and that reads back as published and uploaded. */
  ghost predicate StoredMixed(d: Object, id: string, name: string, env: Env) {
    && Get(d, ID) == JStr(id) && Get(d, NAME) == JStr(name) && LOOKALIKE in Elastic.Values(d, TYPE)
    && ReadBack(d, env).Found? && BringsStatuses(ReadBack(d, env).item, env.text)
  }

  /** A request for an AI model without media, with no status of its own but those in more. */
  ghost predicate Asks(op: Op, post: bool, id: string, name: string, more: Object) {
    && op.Submit? && op.kind == Factory.AiModel && op.post == post && DATA_UPLOAD_STATUS !in more
    && Shows(op.body, id, name, [JStr(AI_MODEL)], more)
  }

  ghost predicate AsksForModel(op: Op, post: bool, id: string, name: string) {
    Asks(op, post, id, name, map[])
  }

  lemma ModelIsPrepared(op: Op, post: bool, id: string, name: string, more: Object, env: Env)
    requires Asks(op, post, id, name, more) && Text.IsUuid(id)
    ensures IsRouted(op) && Prepared(op.body, op.stamp, env.text) == Ok(WithCommon(op.body, op.stamp))
    ensures RequestId(op, env) == id && RequestName(op, env) == name && !CarriesMedia(op.body, env.text)
  {
    OneTypeIsRouted(op.body, Factory.AiModel);
    ShownIsPrepared(op.body, id, name, [JStr(AI_MODEL)], more, op.stamp, env.text);
  }

  lemma UuidIsNotBlank(id: string)
    requires Text.IsUuid(id)
    ensures !Text.TrimsToEmpty(id) && !Text.IsBlank(id)
  {
    assert id[8] == '-';
  }

  lemma JudgedModel(op: Op, request: Object, l: Lookup, text: Json -> string)
    requires op.Submit? && op.kind == Factory.AiModel && MEDIA_URL !in request
    requires if op.post then LetsCreate(op.kind, l) else l.Missing? || l.Found?
    ensures var judged := Judged(op.kind, op.post, request, l, text);
            && judged.Ok?
            && Get(judged.value, TYPE) == Get(request, TYPE) && Get(judged.value, TAGS) == Get(request, TAGS)
            && (judged.value == request || Get(judged.value, DATA_UPLOAD_STATUS).JBool?)
  {
  }

  lemma ModelItemParses(op: Op, post: bool, id: string, name: string, more: Object, l: Lookup, env: Env)
    requires Asks(op, post, id, name, more) && Text.IsUuid(id)
    requires if post then LetsCreate(op.kind, l) else l.Missing? || l.Found?
    ensures ParsedItem(op, l, env).Ok?
  {
    ShownIsPrepared(op.body, id, name, [JStr(AI_MODEL)], more, op.stamp, env.text);
    var request := WithCommon(op.body, op.stamp);
    JudgedModel(op, request, l, env.text);
    ModelParses(Judged(op.kind, post, request, l, env.text).value, env.text);
  }

  lemma SentModel(p: Object, id: string, name: string, dropNulls: bool)
    requires StoredModel(p, id, name)
    ensures StoredModel(Sent(p, dropNulls), id, name)
  {
  }

  lemma ModelItemShows(op: Op, id: string, name: string, l: Lookup, env: Env)
    requires AsksForModel(op, true, id, name) && Text.IsUuid(id) && LetsCreate(op.kind, l)
    ensures ParsedItem(op, l, env).Ok? && StoredModel(ParsedItem(op, l, env).value, id, name)
  {
    ModelIsPrepared(op, true, id, name, map[], env);
    ModelItemParses(op, true, id, name, map[], l, env);
    var request, judged := ItemParts(op, l, env);
    ItemIdentity(op, l, env, request, judged);
    CreatedStatus(op, l, env);
  }

  /** One more document under the id. */
  ghost predicate Adds(w: World, id: string, d: Object, after: World) {
    id !in w.docs && after.docs == w.docs[id := d]
  }

  lemma ModelStored(w: World, op: Op, id: string, name: string, l: Lookup, env: Env) returns (d: Object)
    requires Keyed(w.docs) && id !in w.docs
    requires AsksForModel(op, true, id, name) && Text.IsUuid(id) && LetsCreate(op.kind, l)
    ensures Accepted(w, op, l, env) && Adds(w, id, d, AfterSubmit(w, op, l, env)) && StoredModel(d, id, name)
  {
    ModelIsPrepared(op, true, id, name, map[], env);
    UuidIsNotBlank(id);
    ModelItemShows(op, id, name, Missing, env);
    CreateAcceptedUnder(w, op, l, env);
    CreateLands(w, op, l, env);
    ModelItemShows(op, id, name, l, env);
    d := Sent(ParsedItem(op, l, env).value, env.dropNulls);
    SentModel(ParsedItem(op, l, env).value, id, name, env.dropNulls);
  }

  // ---------------------------------------------------------------- the mixed item, stored and read back

  ghost predicate AsksForMixed(op: Op, id: string, name: string) {
    && op.Submit? && op.kind == Factory.AppsKind && op.post
    && Shows(op.body, id, name, MIXED_TYPES, UPLOADED_AND_PUBLISHED)
    && Get(op.body, "sections") == JArr([JObj(PROBLEM)])
  }

  /** An apps object that shows the lists of a, and statuses without media. */
  ghost predicate Mixed(o: Object, id: string, name: string, a: Apps.Apps) {
    && Get(o, ID) == JStr(id) && Get(o, NAME) == JStr(name) && Get(o, TYPE) == JArr(MIXED_TYPES)
    && PUBLISH_STATUS in o && Get(o, PUBLISH_STATUS) == JStr(PUBLISHED)
    && Get(o, DATA_UPLOAD_STATUS) == JBool(true) && MEDIA_URL !in o
    && Apps.ShowsLists(o, a)
  }

  lemma MixedIsPrepared(op: Op, id: string, name: string, env: Env)
    requires AsksForMixed(op, id, name) && Text.IsUuid(id)
    ensures IsRouted(op) && Prepared(op.body, op.stamp, env.text) == Ok(WithCommon(op.body, op.stamp))
    ensures RequestId(op, env) == id && RequestName(op, env) == name
  {
    MixedIsRouted(op.body);
    ShownIsPrepared(op.body, id, name, MIXED_TYPES, UPLOADED_AND_PUBLISHED, op.stamp, env.text);
  }

  lemma MixedParses(op: Op, id: string, name: string, env: Env)
    requires AsksForMixed(op, id, name) && Text.IsUuid(id)
    ensures ParsedItem(op, Missing, env).Ok?
  {
    ShownIsPrepared(op.body, id, name, MIXED_TYPES, UPLOADED_AND_PUBLISHED, op.stamp, env.text);
    AppsParses(WithCommon(op.body, op.stamp), MIXED_TYPES, env.text);
  }

  lemma AdditionsPresent()
    ensures PUBLISH_STATUS in UPLOADED_AND_PUBLISHED
    ensures Get(UPLOADED_AND_PUBLISHED, PUBLISH_STATUS) == JStr(PUBLISHED)
    ensures Get(UPLOADED_AND_PUBLISHED, DATA_UPLOAD_STATUS) == JBool(true)
  {
  }

  lemma MixedItemShows(op: Op, id: string, name: string, env: Env) returns (a: Apps.Apps)
    requires AsksForMixed(op, id, name) && Text.IsUuid(id)
    ensures ParsedItem(op, Missing, env).Ok? && Mixed(ParsedItem(op, Missing, env).value, id, name, a)
  {
    MixedIsPrepared(op, id, name, env);
    MixedParses(op, id, name, env);
    var request, judged := ItemParts(op, Missing, env);
    ItemIdentity(op, Missing, env, request, judged);
    a := Apps.FromJson(judged, env.text).value;
    Apps.PrintedLists(judged, env.text);
    Factory.AppsShowsStatus(judged, env.text);
    AdditionsPresent();
    ShownIsPrepared(op.body, id, name, MIXED_TYPES, UPLOADED_AND_PUBLISHED, op.stamp, env.text);
  }

  lemma SentMixed(p: Object, id: string, name: string, a: Apps.Apps, dropNulls: bool)
    requires Mixed(p, id, name, a)
    ensures Mixed(Sent(p, dropNulls), id, name, a)
  {
  }

  lemma SummaryApart()
    ensures SUMMARY !in {ID, NAME, TYPE, TAGS, "sections", PUBLISH_STATUS, DATA_UPLOAD_STATUS, MEDIA_URL}
  {
  }

  lemma SummaryTaken(d: Object, id: string, name: string, a: Apps.Apps)
    requires Mixed(d, id, name, a)
    ensures Mixed(d - {SUMMARY}, id, name, a)
  {
    SummaryApart();
  }

  lemma MixedIsApps(source: Object, text: Json -> string)
    requires Get(source, TYPE) == JArr(MIXED_TYPES)
    ensures Factory.From(source, text) == Factory.PrintAs(Factory.AppsKind, source, text)
  {
    assert LOOKALIKE[0] == 'A' && AI_MODEL[0] == 'a' && APPS[5] == 'A' && AI_MODEL[6] != APPS[6];
  }

  /** Read back, the item brings its own statuses and does not mention the AI model type. */
  ghost predicate BringsStatuses(item: Object, text: Json -> string) {
    && GetString(item, PUBLISH_STATUS, text) == Some(PUBLISHED)
    && Get(item, DATA_UPLOAD_STATUS) == JBool(true) && GetString(item, MEDIA_URL, text).None?
    && !MentionsType(item, AI_MODEL)
  }

  lemma MixedPrints(source: Object, id: string, name: string, a: Apps.Apps, text: Json -> string)
    requires Mixed(source, id, name, a)
    ensures Factory.From(source, text).Ok?
    ensures BringsStatuses(Factory.From(source, text).value, text)
  {
    MixedIsApps(source, text);
    Apps.ListsSuffice(source, a, text);
    Factory.AppsShowsStatus(source, text);
    Apps.PrintedLists(source, text);
    Apps.ParsedFields(source, text);
    StatusesShown(Apps.ToJson(Apps.FromJson(source, text).value), text);
  }

  lemma StatusesShown(item: Object, text: Json -> string)
    requires Get(item, TYPE) == JArr(MIXED_TYPES)
    requires PUBLISH_STATUS in item && Get(item, PUBLISH_STATUS) == JStr(PUBLISHED)
    requires Get(item, DATA_UPLOAD_STATUS) == JBool(true) && MEDIA_URL !in item
    ensures BringsStatuses(item, text)
  {
    MixedDoesNotMention();
  }

  lemma MixedReadsBack(d: Object, id: string, name: string, a: Apps.Apps, env: Env)
    requires Mixed(d, id, name, a)
    ensures ReadBack(d, env).Found? && BringsStatuses(ReadBack(d, env).item, env.text)
  {
    SummaryTaken(d, id, name, a);
    MixedPrints(d - {SUMMARY}, id, name, a, env.text);
    ReadBackIs(d, id, env);
  }

  lemma ReadBackIs(d: Object, id: string, env: Env)
    requires Get(d - {SUMMARY}, ID) == JStr(id) && Factory.From(d - {SUMMARY}, env.text).Ok?
    ensures ReadBack(d, env) == Found(Factory.From(d - {SUMMARY}, env.text).value)
  {
  }

  lemma MixedIsStored(w: World, op: Op, id: string, name: string, env: Env) returns (d: Object)
    requires Keyed(w.docs) && id !in w.docs && AsksForMixed(op, id, name) && Text.IsUuid(id)
    ensures Accepted(w, op, Missing, env) && Adds(w, id, d, AfterSubmit(w, op, Missing, env))
    ensures StoredMixed(d, id, name, env)
  {
    MixedIsPrepared(op, id, name, env);
    UuidIsNotBlank(id);
    var a := MixedItemShows(op, id, name, env);
    CreateAcceptedUnder(w, op, Missing, env);
    CreateLands(w, op, Missing, env);
    d := Sent(ParsedItem(op, Missing, env).value, env.dropNulls);
    SentMixed(ParsedItem(op, Missing, env).value, id, name, a, env.dropNulls);
    MixedReadsBack(d, id, name, a, env);
    MixedValues(d);
  }
}
