/** Item requests as a provider sends them, with every field their schemas require. */
module SampleRequests {
  import opened Fields
  import opened Json
  import opened ItemService
  import opened StoreSteps
  import Apps = AppsItem
  import Factory = ItemFactory
  import Media = MediaItems
  import Text

  const MODEL_DETAILS: Object := map[
    "label" := JStr("Test-Crop Disease Detection Model"),
    "shortDescription" := JStr("Detects diseases in crop leaves."),
    "description" := JStr("A model for detecting crop disease with the help of infected leaf images."),
    TAGS := JArr([JStr("ai")]), ACCESS_POLICY := JStr("RESTRICTED"), "organizationType" := JStr("Private"),
    "organizationId" := JStr("337545aa-1fa5-4ca0-bf3d-072144dec5b6"), "modelType" := JStr("ImageClassifier"),
    "fileFormat" := JStr("ipynb"), "industry" := JStr("Agriculture"), "license" := JStr("MIT"),
    "fileSize" := JStr("15MB")]

  const PROBLEM: Object := map["title" := JStr("Problem Statement"), "content" := JStr("Late identification.")]

  const APPS_DETAILS: Object := map[
    "sections" := JArr([JObj(PROBLEM)]), TAGS := JArr([JStr("ai")]),
    "label" := JStr("Crop Disease Detection Application"), "industry" := JStr("Agriculture"),
    "shortDescription" := JStr("Detects crop diseases early."),
    "description" := JStr("Detects crop diseases from infected leaf images."),
    "organizationType" := JStr("Private"), ACCESS_POLICY := JStr("OPEN")]

  function Identity(id: string, name: string, types: seq<Json>): Object {
    map[ID := JStr(id), NAME := JStr(name), TYPE := JArr(types)]
  }

  /** The fields a client may add on its own account. */
  ghost predicate OnlyStatus(more: Object) {
    forall k | k in more :: k == PUBLISH_STATUS || k == DATA_UPLOAD_STATUS
  }

  function ModelRequest(id: string, name: string, more: Object): Object {
    MODEL_DETAILS + Identity(id, name, [JStr(AI_MODEL)]) + more
  }

  function AppsRequest(id: string, name: string, types: seq<Json>, more: Object): Object {
    APPS_DETAILS + Identity(id, name, types) + more
  }

  // ---------------------------------------------------------------- what the requests hold

  lemma IdentityHolds(id: string, name: string, types: seq<Json>, k: string)
    ensures k in Identity(id, name, types) <==> k == ID || k == NAME || k == TYPE
    ensures Get(Identity(id, name, types), ID) == JStr(id) && Get(Identity(id, name, types), NAME) == JStr(name)
    ensures Get(Identity(id, name, types), TYPE) == JArr(types)
  {
  }

  lemma ModelDetails()
    ensures MEDIA_URL !in MODEL_DETAILS && PUBLISH_STATUS !in MODEL_DETAILS && DATA_UPLOAD_STATUS !in MODEL_DETAILS
    ensures Get(MODEL_DETAILS, TAGS) == JArr([JStr("ai")])
  {
  }

  lemma AppsDetails()
    ensures MEDIA_URL !in APPS_DETAILS && PUBLISH_STATUS !in APPS_DETAILS && DATA_UPLOAD_STATUS !in APPS_DETAILS
    ensures Get(APPS_DETAILS, TAGS) == JArr([JStr("ai")])
    ensures "sections" in APPS_DETAILS && APPS_DETAILS["sections"] == JArr([JObj(PROBLEM)])
  {
  }

  lemma StatusKeysDiffer()
    ensures PUBLISH_STATUS != DATA_UPLOAD_STATUS
    ensures {PUBLISH_STATUS, DATA_UPLOAD_STATUS} !! {ID, NAME, TYPE, TAGS, MEDIA_URL, "sections"}
    ensures {ID, NAME, TYPE} !! {TAGS, MEDIA_URL, "sections"} && |{ID, NAME, TYPE}| == 3
  {
  }

  /** What a request shows of its identity, of its statuses and of the fields its class insists on. */
  ghost predicate Shows(b: Object, id: string, name: string, types: seq<Json>, more: Object) {
    && Get(b, ID) == JStr(id) && Get(b, NAME) == JStr(name) && Get(b, TYPE) == JArr(types)
    && (PUBLISH_STATUS in b <==> PUBLISH_STATUS in more) && Get(b, PUBLISH_STATUS) == Get(more, PUBLISH_STATUS)
    && Get(b, DATA_UPLOAD_STATUS) == Get(more, DATA_UPLOAD_STATUS)
    && Get(b, TAGS) == JArr([JStr("ai")]) && MEDIA_URL !in b
  }

  lemma Layers(details: Object, id: string, name: string, types: seq<Json>, more: Object)
    requires OnlyStatus(more) && Get(details, TAGS) == JArr([JStr("ai")]) && MEDIA_URL !in details
    requires PUBLISH_STATUS !in details && DATA_UPLOAD_STATUS !in details
    ensures Shows(details + Identity(id, name, types) + more, id, name, types, more)
    ensures "sections" in details ==> Get(details + Identity(id, name, types) + more, "sections") == details["sections"]
  {
    StatusKeysDiffer();
    IdentityHolds(id, name, types, PUBLISH_STATUS);
    IdentityHolds(id, name, types, DATA_UPLOAD_STATUS);
    IdentityHolds(id, name, types, TAGS);
    IdentityHolds(id, name, types, MEDIA_URL);
    IdentityHolds(id, name, types, "sections");
  }

  lemma ModelShows(id: string, name: string, more: Object)
    requires OnlyStatus(more)
    ensures Shows(ModelRequest(id, name, more), id, name, [JStr(AI_MODEL)], more)
  {
    ModelDetails();
    Layers(MODEL_DETAILS, id, name, [JStr(AI_MODEL)], more);
  }

  lemma AppsShows(id: string, name: string, types: seq<Json>, more: Object)
    requires OnlyStatus(more)
    ensures Shows(AppsRequest(id, name, types, more), id, name, types, more)
    ensures Get(AppsRequest(id, name, types, more), "sections") == JArr([JObj(PROBLEM)])
  {
    AppsDetails();
    Layers(APPS_DETAILS, id, name, types, more);
  }

  // ---------------------------------------------------------------- how they are prepared and parsed

  lemma CommonFields(r: Object, stamp: Stamp, k: string)
    requires k != "itemStatus" && k != "lastUpdated" && k != "itemCreatedAt"
    ensures Get(WithCommon(r, stamp), k) == Get(r, k) && (k in WithCommon(r, stamp) <==> k in r)
  {
  }

  lemma CommonFieldsDiffer()
    ensures {"itemStatus", "lastUpdated", "itemCreatedAt"}
         !! {ID, NAME, TYPE, TAGS, MEDIA_URL, PUBLISH_STATUS, DATA_UPLOAD_STATUS, "sections"}
  {
  }

  /** A request with a proper id and a name is prepared as it is, with the server's fields set. */
  lemma ShownIsPrepared(b: Object, id: string, name: string, types: seq<Json>, more: Object, stamp: Stamp,
                        text: Json -> string)
    requires Text.IsUuid(id) && Shows(b, id, name, types, more)
    ensures Prepared(b, stamp, text) == Ok(WithCommon(b, stamp))
    ensures GetString(WithCommon(b, stamp), ID, text) == Some(id)
    ensures GetString(WithCommon(b, stamp), NAME, text) == Some(name)
    ensures Shows(WithCommon(b, stamp), id, name, types, more)
    ensures Get(WithCommon(b, stamp), "sections") == Get(b, "sections")
  {
    CommonFieldsDiffer();
    CommonFields(b, stamp, ID);
    CommonFields(b, stamp, NAME);
    CommonFields(b, stamp, TYPE);
    CommonFields(b, stamp, TAGS);
    CommonFields(b, stamp, MEDIA_URL);
    CommonFields(b, stamp, PUBLISH_STATUS);
    CommonFields(b, stamp, DATA_UPLOAD_STATUS);
    CommonFields(b, stamp, "sections");
  }

  lemma ModelParses(d: Object, text: Json -> string)
    requires Get(d, TYPE) == JArr([JStr(AI_MODEL)]) && Get(d, TAGS).JArr?
    requires Get(d, DATA_UPLOAD_STATUS).JNull? || Get(d, DATA_UPLOAD_STATUS).JBool?
    ensures Factory.Parse(d, text).Ok?
  {
    assert Media.Typed(d);
  }

  lemma ProblemParses(text: Json -> string)
    ensures Apps.ParseSections([JObj(PROBLEM)], text).Ok?
  {
    var list := [JObj(PROBLEM)];
    assert list[1..] == [];
    assert Apps.ParseSections(list[1..], text) == Ok([]);
    assert Apps.ParseSection(PROBLEM, text).Ok?;
  }

  lemma AppsParses(d: Object, types: seq<Json>, text: Json -> string)
    requires Get(d, TYPE) == JArr(types) && types != [] && types[0] == JStr(APPS) && Get(d, TAGS).JArr?
    requires Get(d, "sections") == JArr([JObj(PROBLEM)])
    ensures Factory.Parse(d, text).Ok?
  {
    ProblemParses(text);
  }

  // ---------------------------------------------------------------- where they are routed

  lemma ItemTypesAreLowerCase(t: string)
    requires t in ITEM_TYPES
    ensures t != "" && t[0] != 'A'
  {
  }

  lemma OneTypeIsRouted(body: Object, kind: Factory.Kind)
    requires Get(body, TYPE) == JArr([JStr(Factory.TypeName(kind))])
    ensures KindOf(body) == Some(kind)
  {
    RoutedOnly(body, kind);
  }

  lemma RoutedOnly(body: Object, kind: Factory.Kind)
    requires Get(body, TYPE).JArr? && JStr(Factory.TypeName(kind)) in Get(body, TYPE).elems
    requires forall t | t in ITEM_TYPES && JStr(t) in Get(body, TYPE).elems :: t == Factory.TypeName(kind)
    ensures KindOf(body) == Some(kind)
  {
    assert Routed(body, kind);
    forall k: Factory.Kind | Routed(body, k)
      ensures k == kind
    {
      ListedAmongItemTypes(k);
      TypeNamesDiffer(k, kind);
    }
  }
}
