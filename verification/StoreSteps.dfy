/** The state of the store between requests, and what one request may do to it. */
module StoreSteps {
  import opened Fields
  import opened Json
  import opened ItemStore
  import opened ItemService
  import Decoder = QueryDecoder
  import Elastic
  import Factory = ItemFactory
  import Text

  /** What a deployment fixes: the engine, how values are printed and whether nulls reach the store. */
  datatype Env = Env(e: Elastic.Engine, text: Json -> string, dropNulls: bool)

  /** The store, and for every key whether the last write to it carried a media URL that is not blank. */
  datatype World = World(docs: Docs, carried: map<string, bool>)

  datatype Op =
    | Submit(kind: Factory.Kind, post: bool, body: Object, stamp: Stamp)
    | Remove(id: string)

  /** The request has a media URL whose text is not blank. */
  function CarriesMedia(request: Object, text: Json -> string): bool {
    var url := GetString(request, MEDIA_URL, text);
    MEDIA_URL in request && url.Some? && !Text.IsBlank(url.value)
  }

  /** A write reaches the store, unless the store rejects it. */
  ghost function Landed(w: World, write: Write, carried: bool, dropNulls: bool): World {
    var after := Performed(w.docs, Ok(write), dropNulls);
    if after.Err? then w else World(after.value, w.carried[WrittenKey(write) := carried])
  }

  ghost function AfterSubmit(w: World, op: Op, l: Lookup, env: Env): World
    requires op.Submit?
  {
    var write := RequestWrite(w.docs, op.kind, op.post, op.body, op.stamp, l, env.e, env.text);
    if write.Err? then w else Landed(w, write.value, CarriesMedia(op.body, env.text), env.dropNulls)
  }

  function WrittenKey(w: Write): string {
    match w
    case Index(doc) => if Get(doc, ID).JStr? then Get(doc, ID).s else ""
    case Update(key, _) => key
    case Delete(key) => key
  }

  /** The lookup may answer this for the name of the submitted request, which reached the lookup. */
  ghost predicate Answered(w: World, op: Op, l: Lookup, env: Env)
    requires op.Submit?
  {
    && Prepared(op.body, op.stamp, env.text).Ok?
    && LookupAnswers(w.docs, Factory.TypeName(op.kind), RequestName(op, env), env.e, env.text, l)
  }

  function RequestName(op: Op, env: Env): string
    requires op.Submit? && Prepared(op.body, op.stamp, env.text).Ok?
  {
    GetString(Prepared(op.body, op.stamp, env.text).value, NAME, env.text).value
  }

  /** The controller routes the body to the kind of the submission. */
  ghost predicate IsRouted(op: Op)
    requires op.Submit?
  {
    KindOf(op.body) == Some(op.kind)
  }

  /** One request handled to its end: what the controller and the delete handler do. A body that is routed
      to no kind is refused. */
  ghost predicate Step(w: World, op: Op, w': World, env: Env) {
    match op
    case Submit(kind, post, body, stamp) =>
      if !IsRouted(op) || Prepared(body, stamp, env.text).Err? then w' == w
      else
        exists l :: Answered(w, op, l, env) && w' == AfterSubmit(w, op, l, env)
    case Remove(id) =>
      var after := Performed(w.docs, DeleteCheck(w.docs, id, env.e), env.dropNulls);
      w' == if after.Ok? then w.(docs := after.value) else w
  }

  /** The submission leads to a write. */
  ghost predicate Accepted(w: World, op: Op, l: Lookup, env: Env)
    requires op.Submit?
  {
    RequestWrite(w.docs, op.kind, op.post, op.body, op.stamp, l, env.e, env.text).Ok?
  }

  ghost function SubmittedWrite(w: World, op: Op, l: Lookup, env: Env): Write
    requires op.Submit? && Accepted(w, op, l, env)
  {
    RequestWrite(w.docs, op.kind, op.post, op.body, op.stamp, l, env.e, env.text).value
  }

  ghost predicate Extends(docs: Docs, docs': Docs) {
    forall k | k in docs :: k in docs' && docs'[k] == docs[k]
  }

  // ---------------------------------------------------------------- kinds and names

  function ItemKind(d: Object): Option<Factory.Kind> {
    var t := FirstType(d);
    if t == Some(AI_MODEL) then Some(Factory.AiModel)
    else if t == Some(DATA_BANK) then Some(Factory.DataBank)
    else if t == Some(APPS) then Some(Factory.AppsKind)
    else None
  }

  /** The type list names exactly one item type. */
  ghost predicate TypedAs(d: Object, kind: Factory.Kind) {
    && Get(d, TYPE).JArr?
    && forall k: Factory.Kind :: JStr(Factory.TypeName(k)) in Get(d, TYPE).elems <==> k == kind
  }

  ghost predicate Keyed(docs: Docs) {
    forall k | k in docs :: Get(docs[k], ID) == JStr(k)
  }

  ghost predicate SameItem(a: Object, b: Object) {
    ItemKind(a) == ItemKind(b) && Get(a, NAME) == Get(b, NAME)
  }

  ghost predicate UniqueNames(docs: Docs) {
    forall j, k | j in docs && k in docs && SameItem(docs[j], docs[k]) :: j == k
  }

  /** Does some document hold an item of this kind and name? */
  ghost predicate Taken(docs: Docs, kind: Factory.Kind, name: string) {
    exists k :: k in docs && ItemKind(docs[k]) == Some(kind) && Get(docs[k], NAME) == JStr(name)
  }

  lemma TypeNamesDiffer(a: Factory.Kind, b: Factory.Kind)
    requires Text.EqualsIgnoreCase(Factory.TypeName(a), Factory.TypeName(b))
    ensures a == b
  {
    var x, y := Text.ToLower(Factory.TypeName(a)), Text.ToLower(Factory.TypeName(b));
    assert x[6] == y[6];
  }

  lemma {:induction false} ListedIsIndexed(types: seq<Json>, s: string)
    requires JStr(s) in types
    ensures s in Elastic.AllScalars(types)
  {
    if types[0] == JStr(s) {
      assert Elastic.Scalars(types[0]) == [s];
    } else {
      ListedIsIndexed(types[1..], s);
    }
  }

  lemma TypeField(d: Object)
    ensures Elastic.BaseField(TYPE) == TYPE && !Text.EndsWith(TYPE, Elastic.KEYWORD)
    ensures Elastic.Values(d, TYPE) == Elastic.Scalars(Get(d, TYPE))
  {
  }

  lemma NameField(d: Object, name: string)
    requires Get(d, NAME) == JStr(name)
    ensures Elastic.Values(d, NAME) == [name]
  {
  }

  lemma IdField(d: Object, id: string)
    requires Get(d, ID) == JStr(id)
    ensures forall x :: HasId(d, x) <==> x == id
  {
    assert Elastic.Values(d, ID) == [id];
  }

  lemma SelfContained(s: string)
    ensures Text.Contains(s, s)
  {
    assert s[0..] == s;
    assert Text.StartsWith(s[0..], s);
  }

  lemma ListedAmongItemTypes(kind: Factory.Kind)
    ensures Factory.TypeName(kind) in ITEM_TYPES
  {
  }

  lemma RoutedTypes(body: Object, kind: Factory.Kind)
    requires KindOf(body) == Some(kind)
    ensures TypedAs(body, kind)
  {
    assert Routed(body, kind);
    forall k: Factory.Kind | JStr(Factory.TypeName(k)) in Get(body, TYPE).elems
      ensures k == kind
    {
      ListedAmongItemTypes(k);
      TypeNamesDiffer(k, kind);
    }
  }

  // ---------------------------------------------------------------- what reaches the store

  lemma SentKeeps(doc: Object, dropNulls: bool, key: string)
    ensures Get(Sent(doc, dropNulls), key) == Get(doc, key)
  {
  }

  lemma MergedTakes(stored: Object, doc: Object, key: string)
    requires !Get(doc, key).JNull? && !Get(doc, key).JObj?
    ensures Get(MergeIn(stored, doc), key) == Get(doc, key)
  {
  }

  /** A write keeps each key equal to the id inside its document. */
  ghost predicate KeyedWrite(w: Write) {
    w.Update? ==> Get(w.doc, ID) == JStr(w.key)
  }

  lemma CommitKeepsKeys(docs: Docs, w: Write, dropNulls: bool)
    requires Keyed(docs) && KeyedWrite(w) && ItemStore.Commit(docs, w, dropNulls).Ok?
    ensures Keyed(ItemStore.Commit(docs, w, dropNulls).value)
  {
    match w {
      case Index(doc) => SentKeeps(doc, dropNulls, ID);
      case Update(key, doc) =>
        SentKeeps(doc, dropNulls, ID);
        MergedTakes(docs[key], Sent(doc, dropNulls), ID);
      case Delete(_) =>
    }
  }

  lemma SubmitLands(w: World, op: Op, l: Lookup, env: Env)
    requires op.Submit? && Accepted(w, op, l, env)
    ensures AfterSubmit(w, op, l, env)
         == Landed(w, SubmittedWrite(w, op, l, env), CarriesMedia(op.body, env.text), env.dropNulls)
  {
  }

  // ---------------------------------------------------------------- what a request becomes

  lemma PreparedKeeps(body: Object, stamp: Stamp, text: Json -> string)
    requires Prepared(body, stamp, text).Ok?
    ensures var r := Prepared(body, stamp, text).value;
            && Get(r, TYPE) == Get(body, TYPE) && Get(r, NAME) == Get(body, NAME)
            && Get(r, MEDIA_URL) == Get(body, MEDIA_URL) && (MEDIA_URL in r <==> MEDIA_URL in body)
            && GetString(r, ID, text).Some?
  {
  }

  /** Five groups of 8, 4, 4, 4 and 12 letters and digits, joined by dashes. */
  ghost predicate IsGrouped(id: string) {
    exists a: string, b: string, c: string, d: string, e: string ::
      && IsGroup(a, 8) && IsGroup(b, 4) && IsGroup(c, 4) && IsGroup(d, 4) && IsGroup(e, 12)
      && id == a + "-" + b + "-" + c + "-" + d + "-" + e
  }

  predicate IsGroup(s: string, n: nat) {
    |s| == n && forall i :: 0 <= i < n ==> 'a' <= s[i] <= 'z' || 'A' <= s[i] <= 'Z' || '0' <= s[i] <= '9'
  }

  lemma UuidExactly(id: string)
    ensures Text.IsUuid(id) <==> IsGrouped(id)
  {
    if Text.IsUuid(id) {
      var a, b, c, d, e := id[..8], id[9..13], id[14..18], id[19..23], id[24..];
      assert id == a + "-" + b + "-" + c + "-" + d + "-" + e;
      assert IsGroup(a, 8) && IsGroup(b, 4) && IsGroup(c, 4) && IsGroup(d, 4) && IsGroup(e, 12);
    }
    if IsGrouped(id) {
      var a: string, b: string, c: string, d: string, e: string :|
        && IsGroup(a, 8) && IsGroup(b, 4) && IsGroup(c, 4) && IsGroup(d, 4) && IsGroup(e, 12)
        && id == a + "-" + b + "-" + c + "-" + d + "-" + e;
      GroupedIsUuid(a, b, c, d, e);
    }
  }

  lemma GroupedIsUuid(a: string, b: string, c: string, d: string, e: string)
    requires IsGroup(a, 8) && IsGroup(b, 4) && IsGroup(c, 4) && IsGroup(d, 4) && IsGroup(e, 12)
    ensures Text.IsUuid(a + "-" + b + "-" + c + "-" + d + "-" + e)
  {
  }

  /** A request is prepared exactly when it has a name and either no id, in which case it gets the stamped one,
      or an id of five groups, which it keeps; a null id or name gives no answer, any other id is a bad one.
      It keeps its fields but for the three the server stamps. */
  lemma PreparedExactly(body: Object, stamp: Stamp, text: Json -> string)
    ensures var r, id, name := Prepared(body, stamp, text), GetString(body, ID, text), GetString(body, NAME, text);
            if ID in body && id.None? then r == Err(NoAnswer)
            else if ID in body && !IsGrouped(id.value) then r == Err(BadId)
            else if name.None? then r == Err(NoAnswer)
            else && r.Ok? && GetString(r.value, NAME, text) == name
                 && GetString(r.value, ID, text) == Some(if ID in body then id.value else stamp.uuid)
                 && Get(r.value, "itemStatus") == JStr("ACTIVE")
                 && Get(r.value, "lastUpdated") == JStr(stamp.lastUpdated)
                 && Get(r.value, "itemCreatedAt") == JStr(stamp.createdAt)
                 && forall k | k in body && k !in {"itemStatus", "lastUpdated", "itemCreatedAt"} ::
                      k in r.value && r.value[k] == body[k]
  {
    if GetString(body, ID, text).Some? {
      UuidExactly(GetString(body, ID, text).value);
    }
  }

  lemma WithStatusKeeps(r: Object, uploaded: bool, publish: Json)
    ensures var j := WithStatus(r, uploaded, publish);
            && Get(j, TYPE) == Get(r, TYPE) && Get(j, NAME) == Get(r, NAME) && Get(j, ID) == Get(r, ID)
            && Get(j, MEDIA_URL) == Get(r, MEDIA_URL)
            && Get(j, DATA_UPLOAD_STATUS) == JBool(uploaded) && Get(j, PUBLISH_STATUS) == publish
  {
  }

  /** Judging leaves the identifying fields of a request alone. */
  ghost predicate SameIdentity(a: Object, b: Object) {
    Get(a, TYPE) == Get(b, TYPE) && Get(a, NAME) == Get(b, NAME) && Get(a, ID) == Get(b, ID)
  }

  lemma JudgedIdentity(kind: Factory.Kind, post: bool, request: Object, l: Lookup, text: Json -> string)
    requires Judged(kind, post, request, l, text).Ok?
    ensures SameIdentity(Judged(kind, post, request, l, text).value, request)
  {
    if kind != Factory.AppsKind && !(l.Missing? && !post) {
      var media := MediaPresent(request, text).value;
      WithStatusKeeps(request, media, JStr(PENDING));
      if l.Found? && !post {
        WithStatusKeeps(request, media || (WasUploaded(l.item) && !HadMedia(l.item, text)),
                        PublishStatusOf(l.item, text));
      }
    }
  }

  lemma KindIsFirstType(p: Object, kind: Factory.Kind)
    requires ItemKind(p) == Some(kind)
    ensures FirstType(p) == Some(Factory.TypeName(kind))
  {
  }

  lemma FirstTypeIsKind(d: Object, kind: Factory.Kind, k: Factory.Kind)
    requires TypedAs(d, kind) && Get(d, TYPE).elems != [] && Get(d, TYPE).elems[0] == JStr(Factory.TypeName(k))
    ensures k == kind && ItemKind(d) == Some(kind)
  {
    assert Get(d, TYPE).elems[0] in Get(d, TYPE).elems;
  }

  /** The first type of a body that parses is the one it was routed by. */
  lemma ParsedKind(judged: Object, kind: Factory.Kind, text: Json -> string)
    requires TypedAs(judged, kind) && Factory.Parse(judged, text).Ok?
    ensures Factory.Parse(judged, text) == Factory.PrintAs(kind, judged, text) && ItemKind(judged) == Some(kind)
  {
    var first := Get(judged, TYPE).elems[0];
    if first == JStr(DATA_BANK) {
      FirstTypeIsKind(judged, kind, Factory.DataBank);
    } else if first == JStr(APPS) {
      FirstTypeIsKind(judged, kind, Factory.AppsKind);
    } else {
      FirstTypeIsKind(judged, kind, Factory.AiModel);
    }
  }

  lemma ParsedIdentity(request: Object, judged: Object, kind: Factory.Kind, text: Json -> string)
    requires SameIdentity(judged, request) && TypedAs(judged, kind)
    requires GetString(request, NAME, text).Some? && GetString(request, ID, text).Some?
    requires Factory.Parse(judged, text).Ok?
    ensures Factory.Parse(judged, text) == Factory.PrintAs(kind, judged, text)
    ensures var p := Factory.Parse(judged, text).value;
            && Get(p, ID) == JStr(GetString(request, ID, text).value)
            && Get(p, NAME) == JStr(GetString(request, NAME, text).value)
            && Get(p, TYPE) == Get(request, TYPE) && ItemKind(p) == Some(kind)
  {
    ParsedKind(judged, kind, text);
    Factory.PrintKeeps(kind, judged, text);
    IdentityCarried(request, judged, Factory.Parse(judged, text).value, kind, text);
  }

  lemma IdentityCarried(request: Object, judged: Object, p: Object, kind: Factory.Kind, text: Json -> string)
    requires SameIdentity(judged, request) && Factory.IdentityKept(judged, p, text) && ItemKind(judged) == Some(kind)
    requires GetString(request, NAME, text).Some? && GetString(request, ID, text).Some?
    ensures Get(p, ID) == JStr(GetString(request, ID, text).value)
    ensures Get(p, NAME) == JStr(GetString(request, NAME, text).value)
    ensures Get(p, TYPE) == Get(request, TYPE) && ItemKind(p) == Some(kind)
  {
  }

  /** The item a submission is parsed into, given the answer of the name lookup. */
  function ParsedItem(op: Op, l: Lookup, env: Env): Result<Object, Fault>
    requires op.Submit?
  {
    ItemOf(op.kind, op.post, op.body, op.stamp, l, env.text)
  }

  lemma ItemParts(op: Op, l: Lookup, env: Env) returns (request: Object, judged: Object)
    requires op.Submit? && ParsedItem(op, l, env).Ok?
    ensures Prepared(op.body, op.stamp, env.text) == Ok(request)
    ensures Judged(op.kind, op.post, request, l, env.text) == Ok(judged)
    ensures Factory.Parse(judged, env.text).Ok? && Factory.Parse(judged, env.text).value == ParsedItem(op, l, env).value
  {
    request := Prepared(op.body, op.stamp, env.text).value;
    judged := Judged(op.kind, op.post, request, l, env.text).value;
  }

  function RequestId(op: Op, env: Env): string
    requires op.Submit? && Prepared(op.body, op.stamp, env.text).Ok?
  {
    GetString(Prepared(op.body, op.stamp, env.text).value, ID, env.text).value
  }

  lemma RequestNames(op: Op, env: Env)
    requires op.Submit? && Prepared(op.body, op.stamp, env.text).Ok?
    ensures GetString(Prepared(op.body, op.stamp, env.text).value, NAME, env.text) == Some(RequestName(op, env))
    ensures GetString(Prepared(op.body, op.stamp, env.text).value, ID, env.text) == Some(RequestId(op, env))
  {
    PreparedKeeps(op.body, op.stamp, env.text);
  }

  lemma TypedAlike(a: Object, b: Object, kind: Factory.Kind)
    requires TypedAs(a, kind) && Get(b, TYPE) == Get(a, TYPE)
    ensures TypedAs(b, kind)
  {
  }

  /** A routed submission that parses becomes an item with its own id, name, types and kind. */
  lemma ItemIdentity(op: Op, l: Lookup, env: Env, request: Object, judged: Object)
    requires op.Submit? && IsRouted(op) && ParsedItem(op, l, env).Ok?
    requires Prepared(op.body, op.stamp, env.text) == Ok(request)
    requires Judged(op.kind, op.post, request, l, env.text) == Ok(judged)
    ensures Factory.PrintAs(op.kind, judged, env.text) == Ok(ParsedItem(op, l, env).value)
    ensures var p := ParsedItem(op, l, env).value;
            && Get(p, ID) == JStr(RequestId(op, env)) && Get(p, NAME) == JStr(RequestName(op, env))
            && Get(p, TYPE) == Get(op.body, TYPE) && ItemKind(p) == Some(op.kind)
            && FirstType(p) == Some(Factory.TypeName(op.kind))
  {
    RoutedTypes(op.body, op.kind);
    PreparedKeeps(op.body, op.stamp, env.text);
    TypedAlike(op.body, request, op.kind);
    RequestNames(op, env);
    JudgedIdentity(op.kind, op.post, request, l, env.text);
    TypedAlike(request, judged, op.kind);
    ParsedIdentity(request, judged, op.kind, env.text);
    KindIsFirstType(ParsedItem(op, l, env).value, op.kind);
  }

  // ---------------------------------------------------------------- which requests are accepted

  /** Where the keys are the ids, no hit for an id means the key is free. */
  lemma IdHits(docs: Docs, id: string, e: Elastic.Engine)
    requires Keyed(docs)
    ensures Hits(docs, IdModel(id), e) != {} <==> id in docs
  {
    forall k | k in docs
      ensures k in Hits(docs, IdModel(id), e) <==> k == id
    {
      IdMeaning(id, docs[k], e);
      IdField(docs[k], k);
    }
  }

  /** In a keyed store the item query of an id finds the document under that key and nothing else, so get-item
      answers with the stored document to every caller the ownership check lets through. */
  lemma ItemFound(docs: Docs, id: string, e: Elastic.Engine)
    requires Keyed(docs)
    ensures Hits(docs, Decoder.ItemByIdModel(id), e) == if id in docs then {id} else {}
  {
    forall k | k in docs
      ensures k in Hits(docs, Decoder.ItemByIdModel(id), e) <==> k == id
    {
      ItemByIdMeaning(id, docs[k], e);
      IdField(docs[k], k);
    }
  }

  /** Reading an item, whether its policy is private and the caller not its owner. */
  ghost predicate Withholds(d: Object, subId: string, text: Json -> string) {
    var policy, owner := GetString(d, ACCESS_POLICY, text), GetString(d, OWNER, text);
    && policy.Some? && Text.ToLower(policy.value) == "private"
    && (subId == "" || (owner.Some? && Text.ToLower(owner.value) != Text.ToLower(subId)))
  }

  /** A private item without an owner, asked for by a signed-in caller. */
  ghost predicate LacksOwner(d: Object, subId: string, text: Json -> string) {
    var policy, owner := GetString(d, ACCESS_POLICY, text), GetString(d, OWNER, text);
    policy.Some? && Text.ToLower(policy.value) == "private" && subId != "" && owner.None?
  }

  lemma ReadAnswerExactly(d: Object, subId: string, text: Json -> string)
    ensures ReadAnswer(d - {SUMMARY}, subId, text) ==
            if Withholds(d, subId, text) then Err(AccessDenied)
            else if LacksOwner(d, subId, text) then Err(NoAnswer)
            else Ok(Some(d - {SUMMARY}))
  {
    var source := d - {SUMMARY};
    assert GetString(source, ACCESS_POLICY, text) == GetString(d, ACCESS_POLICY, text);
    assert GetString(source, OWNER, text) == GetString(d, OWNER, text);
    assert Text.ToLower("private") == "private";
  }

  /** Where the keys are the ids, get-item answers with nothing exactly when the id is not stored. A stored
      document is refused exactly when its policy is private, in any case, and the caller is anonymous or
      not its owner; a private one without an owner gives a signed-in caller no answer; every other one,
      without a policy too, is returned without its summary. */
  lemma GetItemExactly(docs: Docs, id: string, subId: string, e: Elastic.Engine, text: Json -> string,
                       r: Result<Option<Object>, Fault>)
    requires Keyed(docs) && GetAnswers(docs, id, subId, e, text, r)
    ensures r == Ok(None) <==> id !in docs
    ensures id in docs ==>
              && (r == Err(AccessDenied) <==> Withholds(docs[id], subId, text))
              && (r == Err(NoAnswer) <==> LacksOwner(docs[id], subId, text))
              && (r == Ok(Some(docs[id] - {"_summary"})) <==>
                    !Withholds(docs[id], subId, text) && !LacksOwner(docs[id], subId, text))
  {
    ItemFound(docs, id, e);
    if id in docs {
      ReadAnswerExactly(docs[id], subId, text);
    }
  }

  /** A submission is accepted when it parses and its item passes the check before the write. */
  lemma AcceptedParses(w: World, op: Op, l: Lookup, env: Env)
    requires op.Submit?
    ensures Accepted(w, op, l, env) <==>
            && ParsedItem(op, l, env).Ok?
            && var p := ParsedItem(op, l, env).value;
               if op.post then CreateCheck(w.docs, p, env.e).Ok? else UpdateCheck(w.docs, p, env.e).Ok?
  {
  }

  lemma WriteOfItem(w: World, op: Op, l: Lookup, env: Env)
    requires op.Submit? && Accepted(w, op, l, env)
    ensures ParsedItem(op, l, env).Ok?
    ensures var p := ParsedItem(op, l, env).value;
            Get(p, ID).JStr? && SubmittedWrite(w, op, l, env) == if op.post then Index(p) else Update(Get(p, ID).s, p)
  {
  }

  lemma CreateCheckExactly(docs: Docs, p: Object, e: Elastic.Engine)
    requires Keyed(docs) && Get(p, ID).JStr?
    ensures CreateCheck(docs, p, e).Ok? <==> !Text.IsBlank(Get(p, ID).s) && Get(p, ID).s !in docs
  {
    IdHits(docs, Get(p, ID).s, e);
  }

  lemma TypeNameIsNotBlank(kind: Factory.Kind)
    ensures !Text.IsBlank(Factory.TypeName(kind))
  {
    assert Factory.TypeName(kind)[0] == 'a';
  }

  /** The document lists the type, directly or in a nested list. */
  predicate Lists(d: Object, kind: Factory.Kind) {
    Factory.TypeName(kind) in Elastic.Values(d, TYPE)
  }

  lemma KindHits(docs: Docs, id: string, kind: Factory.Kind, e: Elastic.Engine)
    requires Keyed(docs)
    ensures Hits(docs, UpdateModel(id, Factory.TypeName(kind)), e) != {} <==> id in docs && Lists(docs[id], kind)
  {
    forall k | k in docs
      ensures k in Hits(docs, UpdateModel(id, Factory.TypeName(kind)), e) <==> k == id && Lists(docs[k], kind)
    {
      UpdateMeaning(id, Factory.TypeName(kind), docs[k], e);
      IdField(docs[k], k);
    }
  }

  lemma UpdateCheckExactly(docs: Docs, p: Object, kind: Factory.Kind, e: Elastic.Engine)
    requires Keyed(docs) && Get(p, ID).JStr? && FirstType(p) == Some(Factory.TypeName(kind))
    ensures UpdateCheck(docs, p, e).Ok? <==>
            !Text.IsBlank(Get(p, ID).s) && Get(p, ID).s in docs && Lists(docs[Get(p, ID).s], kind)
  {
    TypeNameIsNotBlank(kind);
    KindHits(docs, Get(p, ID).s, kind, e);
  }

  /** An update whose request parses is accepted exactly when its id is not blank and is the key of a
      document that lists the type of the request. */
  lemma PutAcceptedExactly(w: World, op: Op, l: Lookup, env: Env)
    requires Keyed(w.docs)
    requires op.Submit? && !op.post && IsRouted(op) && ParsedItem(op, l, env).Ok?
    ensures var id := RequestId(op, env);
            Accepted(w, op, l, env) <==> !Text.IsBlank(id) && id in w.docs && Lists(w.docs[id], op.kind)
  {
    var request, judged := ItemParts(op, l, env);
    ItemIdentity(op, l, env, request, judged);
    AcceptedParses(w, op, l, env);
    UpdateCheckExactly(w.docs, ParsedItem(op, l, env).value, op.kind, env.e);
  }

  /** The answer does not stand in the way of a create. */
  ghost predicate LetsCreate(kind: Factory.Kind, l: Lookup) {
    l.Missing? || (kind != Factory.AppsKind && l.Found? && !MentionsType(l.item, Factory.TypeName(kind)))
  }

  /** An answer either refuses a create or leaves no trace in the item. */
  lemma CreateIgnoresAnswer(op: Op, l: Lookup, env: Env)
    requires op.Submit? && op.post && ParsedItem(op, Missing, env).Ok?
    ensures ParsedItem(op, l, env) == ParsedItem(op, Missing, env) <==> LetsCreate(op.kind, l)
    ensures ParsedItem(op, l, env).Ok? <==> LetsCreate(op.kind, l)
  {
  }

  lemma CreateAcceptedUnder(w: World, op: Op, l: Lookup, env: Env)
    requires Keyed(w.docs)
    requires op.Submit? && op.post && IsRouted(op) && ParsedItem(op, Missing, env).Ok?
    ensures var id := RequestId(op, env);
            Accepted(w, op, l, env) <==> LetsCreate(op.kind, l) && id !in w.docs && !Text.IsBlank(id)
  {
    var request, judged := ItemParts(op, Missing, env);
    ItemIdentity(op, Missing, env, request, judged);
    CreateIgnoresAnswer(op, l, env);
    AcceptedParses(w, op, l, env);
    CreateCheckExactly(w.docs, ParsedItem(op, Missing, env).value, env.e);
  }

  // ---------------------------------------------------------------- what the name lookup may answer

  /** The documents the name query selects. */
  function Selected(w: World, op: Op, env: Env): set<string>
    requires op.Submit? && Prepared(op.body, op.stamp, env.text).Ok?
  {
    Hits(w.docs, Decoder.NameExistsModel(Factory.TypeName(op.kind), RequestName(op, env)), env.e)
  }

  /** What the lookup makes of a selected document. */
  function ReadBack(d: Object, env: Env): Lookup {
    LookupOf(d - {SUMMARY}, env.text)
  }

  lemma ReadBackFinds(d: Object, env: Env)
    requires ID in d
    ensures !ReadBack(d, env).Missing?
  {
    assert ID in d - {SUMMARY};
  }

  lemma ReadableAlike(a: Object, b: Object, kind: Factory.Kind)
    requires forall k | k in {TYPE, TAGS, DATA_UPLOAD_STATUS, "sections"} ::
               Get(a, k) == Get(b, k) && (k in a <==> k in b)
    ensures Factory.ReadAs(a, kind) <==> Factory.ReadAs(b, kind)
    ensures Factory.Readable(kind, a) <==> Factory.Readable(kind, b)
  {
    assert "sections" in a ==> a["sections"] == Get(a, "sections") == b["sections"];
  }

  lemma SummaryIsNoneOfThese(d: Object)
    ensures forall k | k in {TYPE, TAGS, DATA_UPLOAD_STATUS, "sections"} ::
              Get(d - {SUMMARY}, k) == Get(d, k) && (k in d - {SUMMARY} <==> k in d)
  {
  }

  /** A selected document with an id is found exactly when the class it is read with can read it; otherwise the
      lookup fails. */
  lemma ReadBackExactly(d: Object, env: Env)
    requires ID in d
    ensures ReadBack(d, env).Found? <==> exists kind :: Factory.ReadAs(d, kind) && Factory.Readable(kind, d)
    ensures !ReadBack(d, env).Found? ==> ReadBack(d, env) == Failed
  {
    ReadBackFinds(d, env);
    SummaryIsNoneOfThese(d);
    Factory.FromExactly(d - {SUMMARY}, env.text);
    forall kind: Factory.Kind
      ensures Factory.ReadAs(d - {SUMMARY}, kind) <==> Factory.ReadAs(d, kind)
      ensures Factory.Readable(kind, d - {SUMMARY}) <==> Factory.Readable(kind, d)
    {
      ReadableAlike(d - {SUMMARY}, d, kind);
    }
  }

  /** Where every document has its id, the lookup answers Missing exactly when nothing is selected; otherwise
      it may read back any one of the selected documents. */
  lemma AnswersExactly(w: World, op: Op, l: Lookup, env: Env)
    requires Keyed(w.docs) && op.Submit? && Prepared(op.body, op.stamp, env.text).Ok?
    ensures Answered(w, op, l, env) <==>
            if Selected(w, op, env) == {} then l == Missing
            else exists k :: k in Selected(w, op, env) && l == ReadBack(w.docs[k], env)
    ensures Answered(w, op, l, env) ==> (l.Missing? <==> Selected(w, op, env) == {})
  {
    forall k | k in Selected(w, op, env)
      ensures !ReadBack(w.docs[k], env).Missing?
    {
      ReadBackFinds(w.docs[k], env);
    }
  }

  /** The create is accepted under some answer the lookup allows. */
  ghost predicate MayBeAccepted(w: World, op: Op, env: Env)
    requires op.Submit?
  {
    exists l :: Answered(w, op, l, env) && Accepted(w, op, l, env)
  }

  /** The document is read back, and none of its listed types contains the type of the create. */
  ghost predicate LooksOther(d: Object, kind: Factory.Kind, env: Env) {
    && ReadBack(d, env).Found? && Get(d, TYPE).JArr?
    && forall s: string | JStr(s) in Get(d, TYPE).elems :: !Text.Contains(s, Factory.TypeName(kind))
  }

  lemma ReadBackTypes(d: Object, env: Env)
    requires ReadBack(d, env).Found?
    ensures Get(ReadBack(d, env).item, TYPE) == Get(d, TYPE) && Get(d, TYPE).JArr?
  {
    assert Get(d - {SUMMARY}, TYPE) == Get(d, TYPE);
    Factory.ReadShowsStatus(d - {SUMMARY}, env.text);
  }

  lemma LooksOtherLetsCreate(d: Object, kind: Factory.Kind, env: Env)
    requires kind != Factory.AppsKind && !ReadBack(d, env).Missing?
    ensures LetsCreate(kind, ReadBack(d, env)) <==> LooksOther(d, kind, env)
  {
    if ReadBack(d, env).Found? {
      ReadBackTypes(d, env);
    }
  }

  /** A create whose request parses may be accepted exactly when its id is unused and not blank and either
      nothing is selected by its name, or, for an AI model or data bank, something selected is read back as
      an item that does not mention its type. */
  lemma CreateAcceptedExactly(w: World, op: Op, env: Env)
    requires Keyed(w.docs)
    requires op.Submit? && op.post && IsRouted(op) && ParsedItem(op, Missing, env).Ok?
    ensures var id, selected := RequestId(op, env), Selected(w, op, env);
            MayBeAccepted(w, op, env) <==>
              && id !in w.docs && !Text.IsBlank(id)
              && (selected == {} || (op.kind != Factory.AppsKind
                                     && exists k :: k in selected && LooksOther(w.docs[k], op.kind, env)))
  {
    var selected := Selected(w, op, env);
    if MayBeAccepted(w, op, env) {
      var l :| Answered(w, op, l, env) && Accepted(w, op, l, env);
      CreateAcceptedUnder(w, op, l, env);
      AnswersExactly(w, op, l, env);
      if op.kind != Factory.AppsKind && selected != {} {
        var k :| k in selected && l == ReadBack(w.docs[k], env);
        LooksOtherLetsCreate(w.docs[k], op.kind, env);
      }
    } else {
      AnswersExactly(w, op, Missing, env);
      CreateAcceptedUnder(w, op, Missing, env);
      forall k | k in selected && op.kind != Factory.AppsKind && LooksOther(w.docs[k], op.kind, env)
        ensures RequestId(op, env) in w.docs || Text.IsBlank(RequestId(op, env))
      {
        LooksOtherLetsCreate(w.docs[k], op.kind, env);
        AnswersExactly(w, op, ReadBack(w.docs[k], env), env);
        CreateAcceptedUnder(w, op, ReadBack(w.docs[k], env), env);
      }
    }
  }

  /** An update keeps the name of the item it addresses. */
  ghost predicate KeepsName(w: World, op: Op, env: Env)
    requires op.Submit? && Prepared(op.body, op.stamp, env.text).Ok?
  {
    !op.post && RequestId(op, env) in w.docs ==> Get(w.docs[RequestId(op, env)], NAME) == JStr(RequestName(op, env))
  }

  // ---------------------------------------------------------------- runs of any requests

  const EMPTY_WORLD := World(map[], map[])

  /** A run of requests handled one after the other, from an empty store. */
  ghost predicate ServedRun(ws: seq<World>, ops: seq<Op>, env: Env) {
    && |ws| == |ops| + 1 && ws[0] == EMPTY_WORLD
    && forall i :: 0 <= i < |ops| ==> Step(ws[i], ops[i], ws[i + 1], env)
  }

  lemma LandedKeepsKeys(w: World, write: Write, carried: bool, dropNulls: bool)
    requires Keyed(w.docs) && KeyedWrite(write)
    ensures Keyed(Landed(w, write, carried, dropNulls).docs)
  {
    if Commit(w.docs, write, dropNulls).Ok? {
      CommitKeepsKeys(w.docs, write, dropNulls);
    }
  }

  lemma SubmitKeepsKeys(w: World, op: Op, l: Lookup, env: Env)
    requires Keyed(w.docs) && op.Submit?
    ensures Keyed(AfterSubmit(w, op, l, env).docs)
  {
    if Accepted(w, op, l, env) {
      WriteOfItem(w, op, l, env);
      SubmitLands(w, op, l, env);
      LandedKeepsKeys(w, SubmittedWrite(w, op, l, env), CarriesMedia(op.body, env.text), env.dropNulls);
    }
  }

  lemma RemoveKeepsKeys(w: World, id: string, w': World, env: Env)
    requires Keyed(w.docs) && Step(w, Remove(id), w', env)
    ensures Keyed(w'.docs)
  {
    if DeleteCheck(w.docs, id, env.e).Ok? && Commit(w.docs, DeleteCheck(w.docs, id, env.e).value, env.dropNulls).Ok? {
      CommitKeepsKeys(w.docs, DeleteCheck(w.docs, id, env.e).value, env.dropNulls);
    }
  }

  lemma StepKeepsKeys(w: World, op: Op, w': World, env: Env)
    requires Keyed(w.docs) && Step(w, op, w', env)
    ensures Keyed(w'.docs)
  {
    match op {
      case Remove(id) => RemoveKeepsKeys(w, id, w', env);
      case Submit(_, _, _, _) =>
        if w' != w {
          var l :| Answered(w, op, l, env) && w' == AfterSubmit(w, op, l, env);
          SubmitKeepsKeys(w, op, l, env);
        }
    }
  }

  /** In every run each document sits under its own id. */
  lemma {:induction false} RunStaysKeyed(ws: seq<World>, ops: seq<Op>, env: Env, n: nat)
    requires ServedRun(ws, ops, env) && n < |ws|
    ensures Keyed(ws[n].docs)
  {
    if n == 0 {
    } else {
      RunStaysKeyed(ws, ops, env, n - 1);
      assert Step(ws[n - 1], ops[n - 1], ws[n], env);
      StepKeepsKeys(ws[n - 1], ops[n - 1], ws[n], env);
    }
  }

  lemma IndexExtends(w: World, p: Object, carried: bool, dropNulls: bool)
    requires Get(p, ID).JStr? && Get(p, ID).s !in w.docs
    ensures Extends(w.docs, Landed(w, Index(p), carried, dropNulls).docs)
  {
  }

  lemma CreateExtends(w: World, op: Op, l: Lookup, env: Env)
    requires Keyed(w.docs) && op.Submit? && op.post
    ensures Extends(w.docs, AfterSubmit(w, op, l, env).docs)
  {
    if Accepted(w, op, l, env) {
      WriteOfItem(w, op, l, env);
      AcceptedParses(w, op, l, env);
      CreateCheckExactly(w.docs, ParsedItem(op, l, env).value, env.e);
      SubmitLands(w, op, l, env);
      IndexExtends(w, ParsedItem(op, l, env).value, CarriesMedia(op.body, env.text), env.dropNulls);
    }
  }

  /** A create in any run leaves every stored document in place. */
  lemma CreateNeverOverwrites(ws: seq<World>, ops: seq<Op>, env: Env, n: nat)
    requires ServedRun(ws, ops, env) && n < |ops| && ops[n].Submit? && ops[n].post
    ensures Extends(ws[n].docs, ws[n + 1].docs)
  {
    RunStaysKeyed(ws, ops, env, n);
    assert Step(ws[n], ops[n], ws[n + 1], env);
    if ws[n + 1] != ws[n] {
      var l :| Answered(ws[n], ops[n], l, env) && ws[n + 1] == AfterSubmit(ws[n], ops[n], l, env);
      CreateExtends(ws[n], ops[n], l, env);
    }
  }
}
