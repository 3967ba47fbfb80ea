/** What every run of requests keeps whose type lists hold no look-alike of another item type. */
module StoreRuns {
  import opened Fields
  import opened Json
  import opened ItemStore
  import opened ItemService
  import QueryMeaning
  import opened StoreSteps
  import Decoder = QueryDecoder
  import Elastic
  import Factory = ItemFactory
  import Text

  // ---------------------------------------------------------------- kinds

  /** The first type is an item type, and no other listed type reads, ignoring case, as another item type. */
  ghost predicate Clean(d: Object) {
    && ItemKind(d).Some?
    && forall s, k: Factory.Kind | s in Elastic.Values(d, TYPE) && Text.EqualsIgnoreCase(s, Factory.TypeName(k)) ::
         s == Factory.TypeName(ItemKind(d).value)
  }

  lemma CleanTypes(d: Object)
    requires Clean(d)
    ensures Factory.TypeName(ItemKind(d).value) in Elastic.Values(d, TYPE)
    ensures forall k: Factory.Kind :: JStr(Factory.TypeName(k)) in Get(d, TYPE).elems ==> k == ItemKind(d).value
    ensures Get(d, TYPE).JArr? && JStr(Factory.TypeName(ItemKind(d).value)) in Get(d, TYPE).elems
  {
    TypeField(d);
    var types := Get(d, TYPE).elems;
    assert types[0] in types;
    ListedIsIndexed(types, Factory.TypeName(ItemKind(d).value));
    forall k: Factory.Kind | JStr(Factory.TypeName(k)) in types
      ensures k == ItemKind(d).value
    {
      ListedIsIndexed(types, Factory.TypeName(k));
      TypeNamesDiffer(k, ItemKind(d).value);
    }
  }

  /** Among clean documents the name lookup finds exactly the items of that kind and name. */
  lemma LookupMeaning(d: Object, kind: Factory.Kind, name: string, e: Elastic.Engine)
    requires Clean(d) && Get(d, NAME).JStr? && Elastic.CaseFolds(e, TYPE)
    ensures QueryMeaning.Holds(Decoder.NameExistsModel(Factory.TypeName(kind), name), d, e)
       <==> ItemKind(d) == Some(kind) && Get(d, NAME) == JStr(name)
  {
    var t := Factory.TypeName(kind);
    NameMeaning(t, name, d, e);
    NameField(d, Get(d, NAME).s);
    TypeField(d);
    CleanTypes(d);
    if Elastic.FieldMatches(d, e, TYPE, t) {
      var v :| v in Elastic.Values(d, TYPE) && Text.EqualsIgnoreCase(v, t);
      TypeNamesDiffer(ItemKind(d).value, kind);
    }
  }

  // ---------------------------------------------------------------- the invariant

  ghost predicate IsMedia(d: Object) {
    ItemKind(d) == Some(Factory.AiModel) || ItemKind(d) == Some(Factory.DataBank)
  }

  /** The stored media URL is a string that is not blank. */
  ghost predicate HasMediaUrl(d: Object) {
    Get(d, MEDIA_URL).JStr? && !Text.IsBlank(Get(d, MEDIA_URL).s)
  }

  /** An AI model or data bank is pending, and its upload status tells whether its last write carried media. */
  ghost predicate MediaStatus(d: Object, carried: bool) {
    && Get(d, PUBLISH_STATUS) == JStr(PENDING)
    && Get(d, DATA_UPLOAD_STATUS) == JBool(carried)
    && (carried ==> HasMediaUrl(d))
  }

  ghost predicate Good(d: Object, key: string, carried: bool) {
    && Get(d, ID) == JStr(key) && Get(d, NAME).JStr? && Clean(d)
    && (IsMedia(d) ==> MediaStatus(d, carried))
  }

  ghost predicate Inv(w: World) {
    && (forall k | k in w.docs :: k in w.carried && Good(w.docs[k], k, w.carried[k]))
    && UniqueNames(w.docs)
  }

  /** The requests the invariants are about: no listed type reads as another item type, and an update keeps
      the name of the item it addresses. Nothing is asked of refused requests and of deletes. */
  ghost predicate Fair(w: World, op: Op, env: Env) {
    op.Submit? && IsRouted(op) && Prepared(op.body, op.stamp, env.text).Ok? ==> Clean(op.body) && KeepsName(w, op, env)
  }

  // ---------------------------------------------------------------- what reaches the store

  /** A good printed item is good once indexed, and once merged into any document. */
  lemma GoodOnceWritten(p: Object, key: string, carried: bool, stored: Object, dropNulls: bool)
    requires Good(p, key, carried)
    ensures Good(Sent(p, dropNulls), key, carried) && SameItem(Sent(p, dropNulls), p)
    ensures Good(MergeIn(stored, Sent(p, dropNulls)), key, carried) && SameItem(MergeIn(stored, Sent(p, dropNulls)), p)
  {
    var s := Sent(p, dropNulls);
    SentKeeps(p, dropNulls, ID);
    SentKeeps(p, dropNulls, NAME);
    SentKeeps(p, dropNulls, TYPE);
    SentKeeps(p, dropNulls, PUBLISH_STATUS);
    SentKeeps(p, dropNulls, DATA_UPLOAD_STATUS);
    SentKeeps(p, dropNulls, MEDIA_URL);
    GoodCongruence(p, s, key, carried);
    MergedTakes(stored, s, ID);
    MergedTakes(stored, s, NAME);
    MergedTakes(stored, s, TYPE);
    if IsMedia(p) {
      MergedTakes(stored, s, PUBLISH_STATUS);
      MergedTakes(stored, s, DATA_UPLOAD_STATUS);
      if carried {
        MergedTakes(stored, s, MEDIA_URL);
      }
    }
    GoodCongruence(p, MergeIn(stored, s), key, carried);
  }

  lemma GoodCongruence(p: Object, d: Object, key: string, carried: bool)
    requires Good(p, key, carried)
    requires Get(d, ID) == Get(p, ID) && Get(d, NAME) == Get(p, NAME) && Get(d, TYPE) == Get(p, TYPE)
    requires IsMedia(p) ==> Get(d, PUBLISH_STATUS) == Get(p, PUBLISH_STATUS)
    requires IsMedia(p) ==> Get(d, DATA_UPLOAD_STATUS) == Get(p, DATA_UPLOAD_STATUS)
    requires IsMedia(p) && carried ==> Get(d, MEDIA_URL) == Get(p, MEDIA_URL)
    ensures Good(d, key, carried) && SameItem(d, p)
  {
    TypeField(p);
    TypeField(d);
  }

  // ---------------------------------------------------------------- the lookup in a good store

  lemma FromClean(source: Object, text: Json -> string)
    requires Clean(source)
    ensures Factory.From(source, text) == Factory.PrintAs(ItemKind(source).value, source, text)
  {
    CleanTypes(source);
    Factory.FromChooses(source, ItemKind(source).value, text);
  }

  /** The search takes the summary out of the document; no field of interest is affected. */
  lemma SummaryAside(d: Object)
    ensures var source := d - {SUMMARY};
            && Get(source, ID) == Get(d, ID) && Get(source, TYPE) == Get(d, TYPE)
            && Get(source, MEDIA_URL) == Get(d, MEDIA_URL)
            && Get(source, DATA_UPLOAD_STATUS) == Get(d, DATA_UPLOAD_STATUS)
            && Get(source, PUBLISH_STATUS) == Get(d, PUBLISH_STATUS)
            && (PUBLISH_STATUS in source <==> PUBLISH_STATUS in d)
  {
  }

  lemma PrintMentionsType(kind: Factory.Kind, source: Object, text: Json -> string)
    requires Clean(source) && ItemKind(source) == Some(kind) && Factory.PrintAs(kind, source, text).Ok?
    ensures MentionsType(Factory.PrintAs(kind, source, text).value, Factory.TypeName(kind))
  {
    var item := Factory.PrintAs(kind, source, text).value;
    Factory.PrintKeeps(kind, source, text);
    CleanTypes(source);
    SelfContained(Factory.TypeName(kind));
    assert JStr(Factory.TypeName(kind)) in Get(item, TYPE).elems;
  }

  lemma FoundItem(d: Object, text: Json -> string)
    requires Clean(d) && Get(d, ID).JStr?
    ensures LookupOf(d - {SUMMARY}, text) != Missing
    ensures LookupOf(d - {SUMMARY}, text).Found? ==>
              && MentionsType(LookupOf(d - {SUMMARY}, text).item, Factory.TypeName(ItemKind(d).value))
              && (IsMedia(d) ==> Factory.StatusKept(d, LookupOf(d - {SUMMARY}, text).item, text))
  {
    var source, kind := d - {SUMMARY}, ItemKind(d).value;
    SummaryAside(d);
    assert ID in source;
    TypeField(d);
    TypeField(source);
    FromClean(source, text);
    if Factory.PrintAs(kind, source, text).Ok? {
      PrintMentionsType(kind, source, text);
      Factory.PrintKeeps(kind, source, text);
    }
  }

  /** In a good store a lookup answers Missing exactly when the name is free; an item it finds is of the
      kind asked for and shows the upload and publish status of a stored one. */
  lemma LookupInGoodStore(w: World, kind: Factory.Kind, name: string, env: Env, l: Lookup)
    requires Inv(w) && Elastic.CaseFolds(env.e, TYPE)
    requires LookupAnswers(w.docs, Factory.TypeName(kind), name, env.e, env.text, l)
    ensures l.Missing? <==> !Taken(w.docs, kind, name)
    ensures l.Found? ==>
              && MentionsType(l.item, Factory.TypeName(kind))
              && (kind != Factory.AppsKind ==>
                    exists k :: && k in w.docs && IsMedia(w.docs[k])
                                && Factory.StatusKept(w.docs[k], l.item, env.text))
  {
    var q := Decoder.NameExistsModel(Factory.TypeName(kind), name);
    forall k | k in w.docs
      ensures k in Hits(w.docs, q, env.e) <==> ItemKind(w.docs[k]) == Some(kind) && Get(w.docs[k], NAME) == JStr(name)
    {
      LookupMeaning(w.docs[k], kind, name, env.e);
    }
    if Hits(w.docs, q, env.e) != {} {
      var k :| k in Hits(w.docs, q, env.e) && l == LookupOf(w.docs[k] - {SUMMARY}, env.text);
      FoundItem(w.docs[k], env.text);
    }
  }

  // ---------------------------------------------------------------- one request

  /** The fields of a validated request on which the invariant depends. */
  ghost predicate WellJudged(request: Object, judged: Object, kind: Factory.Kind, carried: bool) {
    && Get(judged, TYPE) == Get(request, TYPE) && Get(judged, NAME) == Get(request, NAME)
    && Get(judged, ID) == Get(request, ID) && Get(judged, MEDIA_URL) == Get(request, MEDIA_URL)
    && (kind != Factory.AppsKind ==>
          Get(judged, DATA_UPLOAD_STATUS) == JBool(carried) && Get(judged, PUBLISH_STATUS) == JStr(PENDING))
  }

  /** In a good store, a judged request whose name lookup is consistent with its method is well judged. */
  lemma JudgedWell(w: World, kind: Factory.Kind, post: bool, request: Object, l: Lookup, env: Env)
    requires Inv(w) && Elastic.CaseFolds(env.e, TYPE)
    requires GetString(request, NAME, env.text).Some?
    requires LookupAnswers(w.docs, Factory.TypeName(kind), GetString(request, NAME, env.text).value, env.e, env.text, l)
    requires Judged(kind, post, request, l, env.text).Ok?
    requires post || l.Found?
    ensures WellJudged(request, Judged(kind, post, request, l, env.text).value, kind, CarriesMedia(request, env.text))
    ensures post ==> l.Missing?
  {
    LookupInGoodStore(w, kind, GetString(request, NAME, env.text).value, env, l);
    if kind != Factory.AppsKind {
      if l.Found? {
        var k :| k in w.docs && IsMedia(w.docs[k]) && Factory.StatusKept(w.docs[k], l.item, env.text);
        UploadedHadMedia(w.docs[k], w.carried[k], l.item, env.text);
      }
      MediaJudgedWell(kind, post, request, l, env.text);
    }
  }

  lemma MediaJudgedWell(kind: Factory.Kind, post: bool, request: Object, l: Lookup, text: Json -> string)
    requires kind != Factory.AppsKind && Judged(kind, post, request, l, text).Ok?
    requires post ==> l.Found? ==> MentionsType(l.item, Factory.TypeName(kind))
    requires !post ==> l.Found? && !(WasUploaded(l.item) && !HadMedia(l.item, text))
    requires !post ==> PublishStatusOf(l.item, text) == JStr(PENDING)
    ensures WellJudged(request, Judged(kind, post, request, l, text).value, kind, CarriesMedia(request, text))
    ensures post ==> l.Missing?
  {
    WithStatusKeeps(request, MediaPresent(request, text).value, JStr(PENDING));
  }

  /** The previous status never overrides the request: an uploaded item had its media URL. */
  lemma UploadedHadMedia(d: Object, carried: bool, item: Object, text: Json -> string)
    requires MediaStatus(d, carried) && Factory.StatusKept(d, item, text)
    ensures !(WasUploaded(item) && !HadMedia(item, text))
    ensures PublishStatusOf(item, text) == JStr(PENDING)
  {
  }

  lemma CleanAlike(a: Object, b: Object)
    requires Clean(a) && Get(b, TYPE) == Get(a, TYPE)
    ensures Clean(b) && ItemKind(b) == ItemKind(a)
  {
    TypeField(a);
    TypeField(b);
  }

  lemma CarriesAlike(op: Op, env: Env, request: Object)
    requires op.Submit? && Prepared(op.body, op.stamp, env.text) == Ok(request)
    ensures CarriesMedia(request, env.text) == CarriesMedia(op.body, env.text)
  {
    PreparedKeeps(op.body, op.stamp, env.text);
  }

  /** The item printed from a well judged request is good. */
  lemma PrintedGood(request: Object, judged: Object, kind: Factory.Kind, p: Object, text: Json -> string)
    requires WellJudged(request, judged, kind, CarriesMedia(request, text))
    requires Factory.PrintAs(kind, judged, text) == Ok(p) && ItemKind(p) == Some(kind) && kind != Factory.AppsKind
    ensures MediaStatus(p, CarriesMedia(request, text))
  {
    Factory.PrintKeeps(kind, judged, text);
  }

  /** In a good store a submission parses to a good item. */
  lemma JudgedItem(w: World, op: Op, l: Lookup, env: Env)
    requires Inv(w) && Elastic.CaseFolds(env.e, TYPE)
    requires op.Submit? && IsRouted(op) && Clean(op.body)
    requires Answered(w, op, l, env) && ParsedItem(op, l, env).Ok? && (op.post || l.Found?)
    ensures op.post ==> l.Missing?
    ensures Good(ParsedItem(op, l, env).value, RequestId(op, env), CarriesMedia(op.body, env.text))
  {
    var request, judged := ItemParts(op, l, env);
    ItemIdentity(op, l, env, request, judged);
    CleanAlike(op.body, ParsedItem(op, l, env).value);
    RequestNames(op, env);
    JudgedWell(w, op.kind, op.post, request, l, env);
    CarriesAlike(op, env, request);
    if op.kind != Factory.AppsKind {
      PrintedGood(request, judged, op.kind, ParsedItem(op, l, env).value, env.text);
    }
  }

  /** A create of a good item under a free name and an unused id. */
  ghost predicate FreshIndex(w: World, kind: Factory.Kind, write: Write, carried: bool) {
    && write.Index? && Get(write.doc, ID).JStr? && Get(write.doc, ID).s !in w.docs
    && Good(write.doc, Get(write.doc, ID).s, carried)
    && ItemKind(write.doc) == Some(kind) && !Taken(w.docs, kind, Get(write.doc, NAME).s)
  }

  /** An update of a stored item by a good item of the same kind and name. */
  ghost predicate SameUpdate(w: World, write: Write, carried: bool) {
    && write.Update? && write.key in w.docs
    && Good(write.doc, write.key, carried) && SameItem(write.doc, w.docs[write.key])
  }

  lemma GoodStore(w: World)
    requires Inv(w)
    ensures Keyed(w.docs)
    ensures forall k | k in w.docs :: Clean(w.docs[k])
  {
  }

  lemma ListsType(d: Object, kind: Factory.Kind)
    requires Clean(d)
    ensures Lists(d, kind) <==> ItemKind(d) == Some(kind)
  {
    CleanTypes(d);
    if Lists(d, kind) {
      assert Text.EqualsIgnoreCase(Factory.TypeName(kind), Factory.TypeName(kind));
      TypeNamesDiffer(kind, ItemKind(d).value);
    }
  }

  lemma AnswerInGoodStore(w: World, op: Op, l: Lookup, env: Env)
    requires Inv(w) && Elastic.CaseFolds(env.e, TYPE) && op.Submit? && Answered(w, op, l, env)
    ensures l.Missing? <==> !Taken(w.docs, op.kind, RequestName(op, env))
    ensures l.Found? ==> MentionsType(l.item, Factory.TypeName(op.kind))
  {
    LookupInGoodStore(w, op.kind, RequestName(op, env), env, l);
  }

  /** In a good store a create whose request parses is accepted exactly when its name is free among the items
      of its kind and its id is unused and not blank. */
  lemma CreateAcceptedInGoodStore(w: World, op: Op, l: Lookup, env: Env)
    requires Inv(w) && Elastic.CaseFolds(env.e, TYPE)
    requires op.Submit? && op.post && IsRouted(op) && ParsedItem(op, Missing, env).Ok? && Answered(w, op, l, env)
    ensures Accepted(w, op, l, env) <==>
            && !Taken(w.docs, op.kind, RequestName(op, env))
            && RequestId(op, env) !in w.docs && !Text.IsBlank(RequestId(op, env))
  {
    GoodStore(w);
    AnswerInGoodStore(w, op, l, env);
    CreateAcceptedUnder(w, op, l, env);
  }

  /** In a good store an update whose request parses is accepted exactly when its id is not blank and is
      stored with the kind of the request. */
  lemma PutAcceptedInGoodStore(w: World, op: Op, l: Lookup, env: Env)
    requires Inv(w)
    requires op.Submit? && !op.post && IsRouted(op) && ParsedItem(op, l, env).Ok?
    ensures var id := RequestId(op, env);
            Accepted(w, op, l, env) <==> !Text.IsBlank(id) && id in w.docs && ItemKind(w.docs[id]) == Some(op.kind)
  {
    GoodStore(w);
    PutAcceptedExactly(w, op, l, env);
    if RequestId(op, env) in w.docs {
      ListsType(w.docs[RequestId(op, env)], op.kind);
    }
  }

  lemma WrittenIdentity(w: World, op: Op, l: Lookup, env: Env)
    requires op.Submit? && IsRouted(op) && Accepted(w, op, l, env) && Prepared(op.body, op.stamp, env.text).Ok?
    ensures ParsedItem(op, l, env).Ok?
    ensures var p := ParsedItem(op, l, env).value;
            && Get(p, ID) == JStr(RequestId(op, env)) && Get(p, NAME) == JStr(RequestName(op, env))
            && ItemKind(p) == Some(op.kind)
            && SubmittedWrite(w, op, l, env) == if op.post then Index(p) else Update(RequestId(op, env), p)
  {
    WriteOfItem(w, op, l, env);
    var request, judged := ItemParts(op, l, env);
    ItemIdentity(op, l, env, request, judged);
  }

  /** An accepted create finds its name free and its id unused, and writes a good item. */
  lemma AcceptedPost(w: World, op: Op, l: Lookup, env: Env)
    requires Inv(w) && Elastic.CaseFolds(env.e, TYPE)
    requires op.Submit? && op.post && IsRouted(op) && Clean(op.body)
    requires Accepted(w, op, l, env) && Answered(w, op, l, env)
    ensures FreshIndex(w, op.kind, SubmittedWrite(w, op, l, env), CarriesMedia(op.body, env.text))
  {
    WrittenIdentity(w, op, l, env);
    JudgedItem(w, op, l, env);
    CreateCheckPassed(w, op, l, env);
    AnswerInGoodStore(w, op, l, env);
  }

  lemma CreateCheckPassed(w: World, op: Op, l: Lookup, env: Env)
    requires Inv(w) && op.Submit? && op.post && IsRouted(op) && Accepted(w, op, l, env)
    requires Prepared(op.body, op.stamp, env.text).Ok?
    ensures RequestId(op, env) !in w.docs
  {
    WrittenIdentity(w, op, l, env);
    AcceptedParses(w, op, l, env);
    CreateCheckExactly(w.docs, ParsedItem(op, l, env).value, env.e);
  }

  /** A fair update that is accepted finds the item it addresses under the name it keeps. */
  lemma FairPutFinds(w: World, op: Op, l: Lookup, env: Env)
    requires Inv(w) && Elastic.CaseFolds(env.e, TYPE)
    requires op.Submit? && !op.post && Answered(w, op, l, env) && KeepsName(w, op, env)
    requires RequestId(op, env) in w.docs && ItemKind(w.docs[RequestId(op, env)]) == Some(op.kind)
    ensures !l.Missing?
  {
    assert Taken(w.docs, op.kind, RequestName(op, env));
    AnswerInGoodStore(w, op, l, env);
  }

  lemma FailedLookupRefuses(op: Op, env: Env)
    requires op.Submit?
    ensures ParsedItem(op, Failed, env).Err?
  {
  }

  /** An accepted update addresses a stored item of the same kind and name, and writes a good item. */
  lemma AcceptedPut(w: World, op: Op, l: Lookup, env: Env)
    requires Inv(w) && Elastic.CaseFolds(env.e, TYPE)
    requires op.Submit? && !op.post && IsRouted(op) && Clean(op.body)
    requires Accepted(w, op, l, env) && Answered(w, op, l, env) && KeepsName(w, op, env)
    ensures SameUpdate(w, SubmittedWrite(w, op, l, env), CarriesMedia(op.body, env.text))
  {
    WrittenIdentity(w, op, l, env);
    PutAcceptedInGoodStore(w, op, l, env);
    FairPutFinds(w, op, l, env);
    FailedLookupRefuses(op, env);
    JudgedItem(w, op, l, env);
  }

  lemma IndexKeepsInv(w: World, kind: Factory.Kind, write: Write, carried: bool, dropNulls: bool)
    requires Inv(w) && FreshIndex(w, kind, write, carried)
    ensures Inv(Landed(w, write, carried, dropNulls))
  {
    GoodOnceWritten(write.doc, Get(write.doc, ID).s, carried, map[], dropNulls);
  }

  lemma UpdateKeepsInv(w: World, write: Write, carried: bool, dropNulls: bool)
    requires Inv(w) && SameUpdate(w, write, carried)
    ensures Inv(Landed(w, write, carried, dropNulls))
  {
    GoodOnceWritten(write.doc, write.key, carried, w.docs[write.key], dropNulls);
  }

  lemma PostKeepsInv(w: World, op: Op, l: Lookup, env: Env)
    requires Inv(w) && Elastic.CaseFolds(env.e, TYPE)
    requires op.Submit? && op.post && IsRouted(op) && Clean(op.body)
    requires Accepted(w, op, l, env) && Answered(w, op, l, env)
    ensures Inv(AfterSubmit(w, op, l, env))
  {
    AcceptedPost(w, op, l, env);
    SubmitLands(w, op, l, env);
    IndexKeepsInv(w, op.kind, SubmittedWrite(w, op, l, env), CarriesMedia(op.body, env.text), env.dropNulls);
  }

  lemma PutKeepsInv(w: World, op: Op, l: Lookup, env: Env)
    requires Inv(w) && Elastic.CaseFolds(env.e, TYPE)
    requires op.Submit? && !op.post && IsRouted(op) && Clean(op.body)
    requires Accepted(w, op, l, env) && Answered(w, op, l, env) && KeepsName(w, op, env)
    ensures Inv(AfterSubmit(w, op, l, env))
  {
    AcceptedPut(w, op, l, env);
    SubmitLands(w, op, l, env);
    UpdateKeepsInv(w, SubmittedWrite(w, op, l, env), CarriesMedia(op.body, env.text), env.dropNulls);
  }

  /** Every fair request, answered in any way the lookup allows, keeps the invariant. */
  lemma StepKeepsInv(w: World, op: Op, w': World, env: Env)
    requires Inv(w) && Elastic.CaseFolds(env.e, TYPE) && Fair(w, op, env) && Step(w, op, w', env)
    ensures Inv(w')
  {
    if op.Submit? && IsRouted(op) && Prepared(op.body, op.stamp, env.text).Ok? {
      var l :| Answered(w, op, l, env) && w' == AfterSubmit(w, op, l, env);
      if Accepted(w, op, l, env) {
        if op.post {
          PostKeepsInv(w, op, l, env);
        } else {
          PutKeepsInv(w, op, l, env);
        }
      }
    }
  }

  /** A clean body is routed to the kind its first type names. */
  lemma RoutedKind(body: Object)
    requires Clean(body) && KindOf(body).Some?
    ensures ItemKind(body) == KindOf(body)
  {
    CleanTypes(body);
  }

  // ---------------------------------------------------------------- runs

  /** A run, from an empty store, of fair requests. */
  ghost predicate Run(ws: seq<World>, ops: seq<Op>, env: Env) {
    ServedRun(ws, ops, env) && forall i :: 0 <= i < |ops| ==> Fair(ws[i], ops[i], env)
  }

  lemma {:induction false} RunKeepsInv(ws: seq<World>, ops: seq<Op>, env: Env, n: nat)
    requires Elastic.CaseFolds(env.e, TYPE) && Run(ws, ops, env) && n < |ws|
    ensures Inv(ws[n])
  {
    if n == 0 {
    } else {
      RunKeepsInv(ws, ops, env, n - 1);
      assert Fair(ws[n - 1], ops[n - 1], env) && Step(ws[n - 1], ops[n - 1], ws[n], env);
      StepKeepsInv(ws[n - 1], ops[n - 1], ws[n], env);
    }
  }

  /** Upload status over whole runs: the status of an AI model or data bank is true exactly when the last
      write to it carried a media URL that is not blank, whether or not nulls reach the store. */
  lemma UploadStatusFollowsLastWrite(ws: seq<World>, ops: seq<Op>, env: Env, n: nat, k: string)
    requires Elastic.CaseFolds(env.e, TYPE) && Run(ws, ops, env) && n < |ws|
    requires k in ws[n].docs && IsMedia(ws[n].docs[k])
    ensures k in ws[n].carried && Get(ws[n].docs[k], DATA_UPLOAD_STATUS) == JBool(ws[n].carried[k])
    ensures Get(ws[n].docs[k], DATA_UPLOAD_STATUS) == JBool(true) ==> HasMediaUrl(ws[n].docs[k])
  {
    RunKeepsInv(ws, ops, env, n);
  }

  /** No run moves an AI model or data bank out of PENDING, and no two items share kind and name. */
  lemma RunsStayPendingAndUnique(ws: seq<World>, ops: seq<Op>, env: Env, n: nat)
    requires Elastic.CaseFolds(env.e, TYPE) && Run(ws, ops, env) && n < |ws|
    ensures forall k | k in ws[n].docs && IsMedia(ws[n].docs[k]) :: Get(ws[n].docs[k], PUBLISH_STATUS) == JStr(PENDING)
    ensures Keyed(ws[n].docs) && UniqueNames(ws[n].docs)
  {
    RunKeepsInv(ws, ops, env, n);
  }
}
