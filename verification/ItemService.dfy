/** Create, get, update and delete of catalogue items, and the validator in front of them. */
module ItemService {
  import opened Fields
  import opened Json
  import opened ItemStore
  import opened QueryModels
  import opened QueryMeaning
  import Access = AccessPolicy
  import Decoder = QueryDecoder
  import Decorators
  import Elastic
  import Factory = ItemFactory
  import opened QueryTheorems
  import Text

  const RESOURCE_GROUP := "resourceGroup"
  const PROVIDER := "provider"
  const RESOURCE_SERVER := "resourceServer"
  const COS := "cos"

  /** The fields through which an item refers to another item. */
  const LINKS: set<string> := {"resourceGroup", "provider", "resourceServer", "cos"}

  datatype Fault =
    | NoId | BadId | NoType | NoName | AlreadyExists | NotFound | HasAssociated | AccessDenied | Unparsable
    | SearchFailed | WriteFailed | NoAnswer

  // ---------------------------------------------------------------- queries

  function IdModel(id: string): QueryModel {
    Decoder.TermModel(Decoder.ID_KEYWORD, id)
  }

  function UpdateModel(id: string, itemType: string): QueryModel {
    BOOL_MODEL.(must := [IdModel(id), Decorators.MatchModel(Decoder.TYPE_KEYWORD, itemType)])
  }

  function LinkModel(link: string, id: string): QueryModel {
    Decoder.TermModel(link + Elastic.KEYWORD, id)
  }

  function DeleteModel(id: string): QueryModel {
    BOOL_MODEL.(should := [IdModel(id), LinkModel(RESOURCE_GROUP, id), LinkModel(PROVIDER, id),
                          LinkModel(RESOURCE_SERVER, id), LinkModel(COS, id)])
  }

  predicate RefersTo(d: Object, link: string, id: string) {
    id in Elastic.Values(d, link)
  }

  /** The document points to the item through one of its link fields. */
  predicate PointsTo(d: Object, id: string) {
    exists link | link in LINKS :: RefersTo(d, link, id)
  }

  predicate HasId(d: Object, id: string) {
    id in Elastic.Values(d, ID)
  }

  lemma KeywordField(field: string, d: Object)
    requires field in LINKS + {ID, NAME, TYPE}
    ensures Elastic.Values(d, field + Elastic.KEYWORD) == Elastic.Values(d, field)
  {
    assert RESOURCE_GROUP[5] == 'r' && PROVIDER[0] == 'p' && RESOURCE_SERVER[6] == 'c';
    KeywordValues(field, d);
  }

  lemma IdMeaning(id: string, d: Object, e: Elastic.Engine)
    ensures Lower(IdModel(id)).Ok?
    ensures Holds(IdModel(id), d, e) <==> HasId(d, id)
  {
    TermMeaning(Decoder.ID_KEYWORD, id, d, e);
    KeywordField(ID, d);
    assert Decoder.ID_KEYWORD == ID + Elastic.KEYWORD;
  }

  lemma ItemByIdMeaning(id: string, d: Object, e: Elastic.Engine)
    ensures Lower(Decoder.ItemByIdModel(id)).Ok?
    ensures Holds(Decoder.ItemByIdModel(id), d, e) <==> HasId(d, id)
  {
    IdMeaning(id, d, e);
    var qs := [IdModel(id)];
    MustOnly(qs, None, d, e);
    assert qs[0] in qs;
  }

  /** The update query finds the documents with the id that list the type. */
  lemma UpdateMeaning(id: string, itemType: string, d: Object, e: Elastic.Engine)
    ensures Lower(UpdateModel(id, itemType)).Ok?
    ensures Holds(UpdateModel(id, itemType), d, e) <==> HasId(d, id) && itemType in Elastic.Values(d, TYPE)
  {
    IdMeaning(id, d, e);
    MatchMeaning(Decoder.TYPE_KEYWORD, itemType, d, e);
    KeywordField(TYPE, d);
    KeywordSuffix(TYPE);
    assert Decoder.TYPE_KEYWORD == TYPE + Elastic.KEYWORD;
    Conjunction(IdModel(id), Decorators.MatchModel(Decoder.TYPE_KEYWORD, itemType), d, e);
  }

  lemma NameMeaning(itemType: string, name: string, d: Object, e: Elastic.Engine)
    ensures Lower(Decoder.NameExistsModel(itemType, name)).Ok?
    ensures Holds(Decoder.NameExistsModel(itemType, name), d, e) <==>
            Elastic.FieldMatches(d, e, TYPE, itemType) && name in Elastic.Values(d, NAME)
  {
    MatchMeaning(TYPE, itemType, d, e);
    MatchMeaning(NAME + Elastic.KEYWORD, name, d, e);
    KeywordField(NAME, d);
    KeywordSuffix(NAME);
    Conjunction(Decorators.MatchModel(TYPE, itemType), Decorators.MatchModel(NAME + Elastic.KEYWORD, name), d, e);
  }

  lemma KeywordSuffix(field: string)
    ensures Text.EndsWith(field + Elastic.KEYWORD, Elastic.KEYWORD)
  {
    assert (field + Elastic.KEYWORD)[|field|..] == Elastic.KEYWORD;
  }

  lemma LinkMeaning(link: string, id: string, d: Object, e: Elastic.Engine)
    requires link in LINKS
    ensures Lower(LinkModel(link, id)).Ok?
    ensures Holds(LinkModel(link, id), d, e) <==> RefersTo(d, link, id)
  {
    TermMeaning(link + Elastic.KEYWORD, id, d, e);
    KeywordField(link, d);
  }

  lemma OneOfFour(d: Object, id: string, a: string, b: string, c: string, x: string)
    ensures (exists link | link in {a, b, c, x} :: RefersTo(d, link, id)) <==>
            RefersTo(d, a, id) || RefersTo(d, b, id) || RefersTo(d, c, id) || RefersTo(d, x, id)
  {
    assert a in {a, b, c, x} && b in {a, b, c, x} && c in {a, b, c, x} && x in {a, b, c, x};
  }

  lemma LinkFields(d: Object, id: string)
    ensures PointsTo(d, id) <==>
            || RefersTo(d, RESOURCE_GROUP, id) || RefersTo(d, PROVIDER, id)
            || RefersTo(d, RESOURCE_SERVER, id) || RefersTo(d, COS, id)
  {
    OneOfFour(d, id, RESOURCE_GROUP, PROVIDER, RESOURCE_SERVER, COS);
  }

  /** The delete query, five should clauses without a must, finds the item and everything that points to it. */
  lemma DeleteMeaning(id: string, d: Object, e: Elastic.Engine)
    ensures Lower(DeleteModel(id)).Ok?
    ensures Holds(DeleteModel(id), d, e) <==> HasId(d, id) || PointsTo(d, id)
  {
    IdMeaning(id, d, e);
    LinkMeaning(RESOURCE_GROUP, id, d, e);
    LinkMeaning(PROVIDER, id, d, e);
    LinkMeaning(RESOURCE_SERVER, id, d, e);
    LinkMeaning(COS, id, d, e);
    LinkFields(d, id);
    OneOfFive(IdModel(id), LinkModel(RESOURCE_GROUP, id), LinkModel(PROVIDER, id), LinkModel(RESOURCE_SERVER, id),
              LinkModel(COS, id), d, e);
  }

  // ---------------------------------------------------------------- the checks before each write

  function CreateCheck(docs: Docs, doc: Object, e: Elastic.Engine): Result<Write, Fault> {
    if !Get(doc, ID).JStr? || Text.IsBlank(Get(doc, ID).s) then Err(NoId)
    else if Hits(docs, IdModel(Get(doc, ID).s), e) != {} then Err(AlreadyExists)
    else Ok(Index(doc))
  }

  function FirstType(doc: Object): Option<string> {
    var t := Get(doc, TYPE);
    if t.JArr? && t.elems != [] && t.elems[0].JStr? then Some(t.elems[0].s) else None
  }

  function UpdateCheck(docs: Docs, doc: Object, e: Elastic.Engine): Result<Write, Fault> {
    if FirstType(doc).None? || Text.IsBlank(FirstType(doc).value) then Err(NoType)
    else if !Get(doc, ID).JStr? || Text.IsBlank(Get(doc, ID).s) then Err(NoId)
    else if Hits(docs, UpdateModel(Get(doc, ID).s, FirstType(doc).value), e) == {} then Err(NotFound)
    else Ok(Update(Get(doc, ID).s, doc))
  }

  ghost function DeleteCheck(docs: Docs, id: string, e: Elastic.Engine): Result<Write, Fault> {
    var hits := Hits(docs, DeleteModel(id), e);
    if Text.IsBlank(id) then Err(NoId)
    else if |hits| > 1 then Err(HasAssociated)
    else if |hits| < 1 then Err(NotFound)
    else
      var key :| key in hits;
      Ok(Delete(key))
  }

  /** The document the store holds once a check has passed. */
  ghost function Performed(docs: Docs, check: Result<Write, Fault>, dropNulls: bool): Result<Docs, Fault> {
    match check
    case Err(f) => Err(f)
    case Ok(w) =>
      var after := Commit(docs, w, dropNulls);
      if after.Ok? then Ok(after.value) else Err(WriteFailed)
  }

  /** What a caller gets for the item that was found. */
  function ReadAnswer(source: Object, subId: string, text: Json -> string): Result<Option<Object>, Fault> {
    match Access.OwnershipCheck(source, subId, text)
    case Granted => Ok(Some(source))
    case Denied => Err(AccessDenied)
    case Throws => Err(NoAnswer)
  }

  /** What get-item may answer: nothing without a hit, else what any one of the hits leads to. */
  ghost predicate GetAnswers(docs: Docs, id: string, subId: string, e: Elastic.Engine, text: Json -> string,
                             r: Result<Option<Object>, Fault>) {
    var hits := Hits(docs, Decoder.ItemByIdModel(id), e);
    if hits == {} then r == Ok(None)
    else exists k :: k in hits && r == ReadAnswer(docs[k] - {SUMMARY}, subId, text)
  }

  // ---------------------------------------------------------------- lookup by name

  datatype Lookup = Missing | Failed | Found(item: Object)

  function LookupOf(source: Object, text: Json -> string): Lookup {
    if source == map[] then Missing
    else
      var item := Factory.From(source, text);
      if item.Ok? then Found(item.value) else Failed
  }

  /** What a lookup by type and name may answer: any one of the matching items. */
  ghost predicate LookupAnswers(docs: Docs, itemType: string, name: string, e: Elastic.Engine,
                                text: Json -> string, l: Lookup) {
    var hits := Hits(docs, Decoder.NameExistsModel(itemType, name), e);
    if hits == {} then l == Missing
    else exists k :: k in hits && l == LookupOf(docs[k] - {SUMMARY}, text)
  }

  // ---------------------------------------------------------------- the validator

  /** The request carries a media URL that is not blank; a null one makes the handler throw. */
  function MediaPresent(request: Object, text: Json -> string): Result<bool, Fault> {
    if MEDIA_URL !in request then Ok(false)
    else
      var url := GetString(request, MEDIA_URL, text);
      if url.None? then Err(NoAnswer) else Ok(!Text.IsBlank(url.value))
  }

  /** Media is present exactly when the URL is there with a text that is not blank, and absent exactly when
      the key is missing or its text is blank; a null URL gives no answer. */
  lemma MediaPresentExactly(request: Object, text: Json -> string)
    ensures var url, media := GetString(request, MEDIA_URL, text), MediaPresent(request, text);
            && (media == Ok(true) <==> MEDIA_URL in request && url.Some? && !Text.IsBlank(url.value))
            && (media == Ok(false) <==> MEDIA_URL !in request || (url.Some? && Text.IsBlank(url.value)))
            && (media.Err? <==> MEDIA_URL in request && request[MEDIA_URL].JNull?)
  {
  }

  function WasUploaded(item: Object): bool {
    Get(item, DATA_UPLOAD_STATUS) == JBool(true)
  }

  function HadMedia(item: Object, text: Json -> string): bool {
    var url := GetString(item, MEDIA_URL, text);
    url.Some? && !Text.IsBlank(url.value)
  }

  function PublishStatusOf(item: Object, text: Json -> string): Json {
    if PUBLISH_STATUS !in item then JStr(PENDING)
    else if item[PUBLISH_STATUS].JNull? then JNull
    else JStr(GetString(item, PUBLISH_STATUS, text).value)
  }

  /** The printed type list mentions the type name. */
  predicate MentionsType(item: Object, itemType: string) {
    && Get(item, TYPE).JArr?
    && exists v | v in Get(item, TYPE).elems :: v.JStr? && Text.Contains(v.s, itemType)
  }

  /** Server-set fields of every request. */
  datatype Stamp = Stamp(uuid: string, lastUpdated: string, createdAt: string)

  function WithId(request: Object, stamp: Stamp, text: Json -> string): Result<Object, Fault> {
    if ID !in request then Ok(request[ID := JStr(stamp.uuid)])
    else
      var id := GetString(request, ID, text);
      if id.None? then Err(NoAnswer)
      else if !Text.IsUuid(id.value) then Err(BadId)
      else Ok(request)
  }

  function WithCommon(request: Object, stamp: Stamp): Object {
    var active := request["itemStatus" := JStr("ACTIVE")];
    active["lastUpdated" := JStr(stamp.lastUpdated)]["itemCreatedAt" := JStr(stamp.createdAt)]
  }

  function Prepared(request: Object, stamp: Stamp, text: Json -> string): Result<Object, Fault> {
    var identified :- WithId(request, stamp, text);
    var stamped := WithCommon(identified, stamp);
    if GetString(stamped, NAME, text).None? then Err(NoAnswer) else Ok(stamped)
  }

  function WithStatus(request: Object, uploaded: bool, publish: Json): Object {
    request[DATA_UPLOAD_STATUS := JBool(uploaded)][PUBLISH_STATUS := publish]
  }

  /** What validation makes of a prepared request, given the answer of the name lookup. */
  function Judged(kind: Factory.Kind, post: bool, request: Object, l: Lookup, text: Json -> string)
    : Result<Object, Fault> {
    match l
    case Failed => Err(SearchFailed)
    case Missing =>
      if kind.AppsKind? || !post then Ok(request)
      else
        var media :- MediaPresent(request, text);
        Ok(WithStatus(request, media, JStr(PENDING)))
    case Found(item) =>
      if kind.AppsKind? then (if post then Err(AlreadyExists) else Ok(request))
      else if post && MentionsType(item, Factory.TypeName(kind)) then Err(AlreadyExists)
      else
        var media :- MediaPresent(request, text);
        if post then Ok(WithStatus(request, media, JStr(PENDING)))
        else Ok(WithStatus(request, media || (WasUploaded(item) && !HadMedia(item, text)), PublishStatusOf(item, text)))
  }

  /** The item kind a body is routed to: its types name exactly one catalogue type, and that one is supported. */
  predicate Routed(body: Object, kind: Factory.Kind) {
    && Get(body, TYPE).JArr?
    && JStr(Factory.TypeName(kind)) in Get(body, TYPE).elems
    && forall t | t in ITEM_TYPES :: JStr(t) in Get(body, TYPE).elems ==> t == Factory.TypeName(kind)
  }

  const ITEM_TYPES: set<string> := {
    "iudx:Resource", "iudx:ResourceGroup", "iudx:ResourceServer", "iudx:Provider", "iudx:COS", "iudx:Owner",
    "adex:AiModel", "adex:DataBank", "adex:Apps"}

  /** A request body whose fields the validator sets in place. */
  class RequestBody {
    var fields: Object

    constructor (fields: Object)
      ensures this.fields == fields
    {
      this.fields := fields;
    }

    method Put(key: string, v: Json)
      modifies this
      ensures fields == old(fields)[key := v]
    {
      fields := fields[key := v];
    }
  }

  class Service {
    const store: ElasticStore
    const text: Json -> string

    constructor (store: ElasticStore, text: Json -> string)
      ensures this.store == store && this.text == text
    {
      this.store, this.text := store, text;
    }

    method CreateItem(doc: Object) returns (r: Result<(), Fault>)
      modifies store
      ensures match Performed(old(store.docs), CreateCheck(old(store.docs), doc, store.engine), store.dropNulls)
              case Ok(after) => r.Ok? && store.docs == after
              case Err(f) => r == Err(f) && store.docs == old(store.docs)
    {
      if !Get(doc, ID).JStr? || Text.IsBlank(Get(doc, ID).s) {
        return Err(NoId);
      }
      IdMeaning(Get(doc, ID).s, map[], store.engine);
      var _ := store.GetSingleDocument(IdModel(Get(doc, ID).s));
      if store.totalHits > 0 {
        return Err(AlreadyExists);
      }
      var done := store.Perform(Index(doc));
      return if done.Ok? then Ok(()) else Err(WriteFailed);
    }

    method UpdateItem(doc: Object) returns (r: Result<(), Fault>)
      modifies store
      ensures match Performed(old(store.docs), UpdateCheck(old(store.docs), doc, store.engine), store.dropNulls)
              case Ok(after) => r.Ok? && store.docs == after
              case Err(f) => r == Err(f) && store.docs == old(store.docs)
    {
      var itemType := FirstType(doc);
      if itemType.None? || Text.IsBlank(itemType.value) {
        return Err(NoType);
      }
      if !Get(doc, ID).JStr? || Text.IsBlank(Get(doc, ID).s) {
        return Err(NoId);
      }
      UpdateMeaning(Get(doc, ID).s, itemType.value, map[], store.engine);
      var _ := store.GetSingleDocument(UpdateModel(Get(doc, ID).s, itemType.value));
      if store.totalHits == 0 {
        return Err(NotFound);
      }
      var done := store.Perform(Update(Get(doc, ID).s, doc));
      return if done.Ok? then Ok(()) else Err(WriteFailed);
    }

    method DeleteItem(id: string) returns (r: Result<(), Fault>)
      modifies store
      ensures match Performed(old(store.docs), DeleteCheck(old(store.docs), id, store.engine), store.dropNulls)
              case Ok(after) => r.Ok? && store.docs == after
              case Err(f) => r == Err(f) && store.docs == old(store.docs)
    {
      if Text.IsBlank(id) {
        return Err(NoId);
      }
      DeleteMeaning(id, map[], store.engine);
      var found := store.GetSingleDocument(DeleteModel(id));
      if store.totalHits > 1 {
        return Err(HasAssociated);
      } else if store.totalHits < 1 {
        return Err(NotFound);
      }
      SingletonHit(Hits(store.docs, DeleteModel(id), store.engine), found.value.value.key);
      var done := store.Perform(Delete(found.value.value.key));
      return if done.Ok? then Ok(()) else Err(WriteFailed);
    }

    method GetItem(id: string, subId: string) returns (r: Result<Option<Object>, Fault>)
      modifies store`totalHits
      ensures GetAnswers(store.docs, id, subId, store.engine, text, r)
    {
      ItemByIdMeaning(id, map[], store.engine);
      var found := store.GetSingleDocument(Decoder.ItemByIdModel(id));
      if store.totalHits == 0 {
        return Ok(None);
      }
      var source := found.value.value.source;
      r := ReadAnswer(source, subId, text);
    }

    method ItemWithTheNameExists(itemType: string, name: string) returns (l: Lookup)
      modifies store`totalHits
      ensures LookupAnswers(store.docs, itemType, name, store.engine, text, l)
      ensures l.Found? ==> store.totalHits > 0
    {
      NameMeaning(itemType, name, map[], store.engine);
      var found := store.GetSingleDocument(Decoder.NameExistsModel(itemType, name));
      if found.value.None? {
        return Missing;
      }
      var source := found.value.value.source;
      if source == map[] {
        return Missing;
      }
      var item := Factory.From(source, text);
      return if item.Ok? then Found(item.value) else Failed;
    }

    /** Sets the id and the server's own fields in the body. */
    method Prepare(body: RequestBody, stamp: Stamp) returns (r: Result<(), Fault>)
      modifies body
      ensures match Prepared(old(body.fields), stamp, text)
              case Ok(fields) => r.Ok? && body.fields == fields
              case Err(f) => r == Err(f)
    {
      var identified := WithId(body.fields, stamp, text);
      if identified.Err? {
        return Err(identified.error);
      }
      if ID !in body.fields {
        body.Put(ID, JStr(stamp.uuid));
      }
      body.Put("itemStatus", JStr("ACTIVE"));
      body.Put("lastUpdated", JStr(stamp.lastUpdated));
      body.Put("itemCreatedAt", JStr(stamp.createdAt));
      if GetString(body.fields, NAME, text).None? {
        return Err(NoAnswer);
      }
      return Ok(());
    }

    /** Sets the upload and publish status of an AI model or data bank. */
    method SetStatus(post: bool, body: RequestBody, item: Object) returns (r: Result<(), Fault>)
      modifies body
      ensures match MediaPresent(old(body.fields), text)
              case Err(f) => r == Err(f)
              case Ok(media) =>
                && r.Ok?
                && body.fields ==
                     if post then WithStatus(old(body.fields), media, JStr(PENDING))
                     else WithStatus(old(body.fields), media || (WasUploaded(item) && !HadMedia(item, text)),
                                     PublishStatusOf(item, text))
    {
      var media :- MediaPresent(body.fields, text);
      if post {
        body.Put(DATA_UPLOAD_STATUS, JBool(media));
        body.Put(PUBLISH_STATUS, JStr(PENDING));
      } else {
        var wasPreviouslyUploaded := WasUploaded(item);
        var previousMediaUrlPresent := HadMedia(item, text);
        body.Put(DATA_UPLOAD_STATUS, JBool(media || (wasPreviouslyUploaded && !previousMediaUrlPresent)));
        body.Put(PUBLISH_STATUS, PublishStatusOf(item, text));
      }
      return Ok(());
    }

    /** Validation of one request; the fields it sets are left in the body. */
    method Validate(kind: Factory.Kind, post: bool, body: RequestBody, stamp: Stamp)
      returns (r: Result<(), Fault>, ghost l: Lookup)
      modifies body, store`totalHits
      ensures Prepared(old(body.fields), stamp, text).Err? ==> r == Err(Prepared(old(body.fields), stamp, text).error)
      ensures Prepared(old(body.fields), stamp, text).Ok? ==>
                var request := Prepared(old(body.fields), stamp, text).value;
                && LookupAnswers(store.docs, Factory.TypeName(kind), GetString(request, NAME, text).value,
                                 store.engine, text, l)
                && match Judged(kind, post, request, l, text)
                   case Ok(fields) => r.Ok? && body.fields == fields
                   case Err(f) => r == Err(f)
    {
      l := Missing;
      var prepared := Prepare(body, stamp);
      if prepared.Err? {
        return prepared, l;
      }
      var found := ItemWithTheNameExists(Factory.TypeName(kind), GetString(body.fields, NAME, text).value);
      l := found;
      if found.Failed? {
        return Err(SearchFailed), l;
      }
      if kind.AppsKind? {
        if found.Found? && post && store.totalHits > 0 {
          return Err(AlreadyExists), l;
        }
        return Ok(()), l;
      }
      if found.Missing? && !post {
        return Ok(()), l;
      }
      if found.Found? && post && MentionsType(found.item, Factory.TypeName(kind)) {
        return Err(AlreadyExists), l;
      }
      r := SetStatus(post, body, if found.Found? then found.item else map[]);
    }
  }

  // ---------------------------------------------------------------- the controller

  function KindOf(body: Object): Option<Factory.Kind> {
    if Routed(body, Factory.AiModel) then Some(Factory.AiModel)
    else if Routed(body, Factory.DataBank) then Some(Factory.DataBank)
    else if Routed(body, Factory.AppsKind) then Some(Factory.AppsKind)
    else None
  }

  /** The item a create or update request is validated and parsed into, given the answer of the name lookup. */
  function ItemOf(kind: Factory.Kind, post: bool, body: Object, stamp: Stamp, l: Lookup, text: Json -> string)
    : Result<Object, Fault> {
    var request :- Prepared(body, stamp, text);
    var judged :- Judged(kind, post, request, l, text);
    var item := Factory.Parse(judged, text);
    if item.Err? then Err(Unparsable) else Ok(item.value)
  }

  /** The write a create or update request leads to, given the answer of the name lookup. */
  function RequestWrite(docs: Docs, kind: Factory.Kind, post: bool, body: Object, stamp: Stamp, l: Lookup,
                        e: Elastic.Engine, text: Json -> string): Result<Write, Fault> {
    var item :- ItemOf(kind, post, body, stamp, l, text);
    if post then CreateCheck(docs, item, e) else UpdateCheck(docs, item, e)
  }

  class Controller {
    const service: Service

    constructor (service: Service)
      ensures this.service == service
    {
      this.service := service;
    }

    method HandleCreateOrUpdate(post: bool, body: Object, stamp: Stamp) returns (r: Result<(), Fault>, ghost l: Lookup)
      modifies service.store
      ensures KindOf(body).None? ==> r.Err? && service.store.docs == old(service.store.docs)
      ensures KindOf(body).Some? && Prepared(body, stamp, service.text).Ok? ==>
                LookupAnswers(old(service.store.docs), Factory.TypeName(KindOf(body).value),
                              GetString(Prepared(body, stamp, service.text).value, NAME, service.text).value,
                              service.store.engine, service.text, l)
      ensures KindOf(body).Some? ==>
                match Performed(old(service.store.docs),
                                RequestWrite(old(service.store.docs), KindOf(body).value, post, body, stamp, l,
                                             service.store.engine, service.text),
                                service.store.dropNulls)
                case Ok(after) => r.Ok? && service.store.docs == after
                case Err(f) => r == Err(f) && service.store.docs == old(service.store.docs)
    {
      l := Missing;
      var kind := KindOf(body);
      if kind.None? {
        return Err(NoType), l;
      }
      var request := new RequestBody(body);
      r, l := service.Validate(kind.value, post, request, stamp);
      if r.Err? {
        return r, l;
      }
      var item := Factory.Parse(request.fields, service.text);
      if item.Err? {
        return Err(Unparsable), l;
      }
      if post {
        r := service.CreateItem(item.value);
      } else {
        r := service.UpdateItem(item.value);
      }
    }
  }

  lemma SingletonHit(hits: set<string>, key: string)
    requires |hits| == 1 && key in hits
    ensures forall k :: k in hits ==> k == key
  {
    forall k | k in hits
      ensures k == key
    {
      if k != key {
        assert {k, key} <= hits;
        SubsetSize({k, key}, hits);
      }
    }
  }

  lemma {:induction false} SubsetSize<T>(a: set<T>, b: set<T>)
    requires a <= b
    ensures |a| <= |b|
  {
    if a == {} {
    } else {
      var x :| x in a;
      SubsetSize(a - {x}, b - {x});
    }
  }
}
