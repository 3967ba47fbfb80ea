/** What one accepted request leaves in the store, under every answer its name lookup may give. */
module StoreStatus {
  import opened Fields
  import opened Json
  import opened ItemStore
  import opened ItemService
  import opened StoreSteps
  import Factory = ItemFactory
  import Media = MediaItems
  import Text

  // ---------------------------------------------------------------- a field after an update

  /** What an update leaves in a field: an absent value leaves what is stored, and so does a null that does
      not reach the store. */
  function Overwritten(present: bool, v: Json, stored: Json, dropNulls: bool): Json {
    if !present || (v.JNull? && dropNulls) then stored else v
  }

  lemma MergedField(stored: Object, p: Object, key: string, dropNulls: bool)
    requires !Get(stored, key).JObj?
    ensures Get(MergeIn(stored, Sent(p, dropNulls)), key)
         == Overwritten(key in p, Get(p, key), Get(stored, key), dropNulls)
  {
  }

  /** The document the update addresses, as the request leaves it. */
  ghost function After(w: World, op: Op, l: Lookup, env: Env): Object
    requires op.Submit? && Prepared(op.body, op.stamp, env.text).Ok?
  {
    var docs := AfterSubmit(w, op, l, env).docs;
    if RequestId(op, env) in docs then docs[RequestId(op, env)] else map[]
  }

  lemma UpdateLands(w: World, op: Op, l: Lookup, env: Env)
    requires Keyed(w.docs) && op.Submit? && !op.post && IsRouted(op) && Accepted(w, op, l, env)
    requires Prepared(op.body, op.stamp, env.text).Ok? && !Text.TrimsToEmpty(RequestId(op, env))
    ensures ParsedItem(op, l, env).Ok? && RequestId(op, env) in w.docs
    ensures var key, p := RequestId(op, env), ParsedItem(op, l, env).value;
            AfterSubmit(w, op, l, env) == World(w.docs[key := MergeIn(w.docs[key], Sent(p, env.dropNulls))],
                                                w.carried[key := CarriesMedia(op.body, env.text)])
  {
    WriteOfItem(w, op, l, env);
    var request, judged := ItemParts(op, l, env);
    ItemIdentity(op, l, env, request, judged);
    PutAcceptedExactly(w, op, l, env);
    SubmitLands(w, op, l, env);
  }

  /** An accepted update, path by path through nested objects: where the item sent is silent the stored value
      stays, and where it holds anything but an object that replaces what is stored. */
  lemma UpdateAtPath(w: World, op: Op, l: Lookup, env: Env, path: seq<string>)
    requires Keyed(w.docs) && op.Submit? && !op.post && IsRouted(op) && Accepted(w, op, l, env)
    requires Prepared(op.body, op.stamp, env.text).Ok? && !Text.TrimsToEmpty(RequestId(op, env)) && path != []
    ensures ParsedItem(op, l, env).Ok? && RequestId(op, env) in w.docs
    ensures var sent := Sent(ParsedItem(op, l, env).value, env.dropNulls);
            && (Silent(sent, path) ==> At(After(w, op, l, env), path) == At(w.docs[RequestId(op, env)], path))
            && (!Silent(sent, path) && (At(sent, path).None? || !At(sent, path).value.JObj?) ==>
                  At(After(w, op, l, env), path) == At(sent, path))
  {
    UpdateLands(w, op, l, env);
    MergedAt(w.docs[RequestId(op, env)], Sent(ParsedItem(op, l, env).value, env.dropNulls), path);
  }

  // ---------------------------------------------------------------- the statuses an update brings

  /** The publish status an update brings, and whether it brings any: that of the item found, PENDING if it
      has none, or else its own. */
  function PublishBrought(op: Op, l: Lookup, env: Env): (bool, Json)
    requires op.Submit?
  {
    if l.Found? && PUBLISH_STATUS !in l.item then (true, JStr(PENDING))
    else if l.Found? then (true, StrJson(GetString(l.item, PUBLISH_STATUS, env.text)))
    else (PUBLISH_STATUS in op.body, Get(op.body, PUBLISH_STATUS))
  }

  /** The object counts as uploaded, though its media URL is missing or blank. */
  predicate UploadedWithoutMedia(o: Object, env: Env) {
    var url := GetString(o, MEDIA_URL, env.text);
    Get(o, DATA_UPLOAD_STATUS) == JBool(true) && (url.None? || Text.IsBlank(url.value))
  }

  function UploadBrought(op: Op, l: Lookup, env: Env): Json
    requires op.Submit?
  {
    if l.Found? then JBool(CarriesMedia(op.body, env.text) || UploadedWithoutMedia(l.item, env))
    else Get(op.body, DATA_UPLOAD_STATUS)
  }

  lemma PreparedStatus(op: Op, env: Env)
    requires op.Submit? && Prepared(op.body, op.stamp, env.text).Ok?
    ensures var r := Prepared(op.body, op.stamp, env.text).value;
            && (PUBLISH_STATUS in r <==> PUBLISH_STATUS in op.body)
            && Get(r, PUBLISH_STATUS) == Get(op.body, PUBLISH_STATUS)
            && Get(r, DATA_UPLOAD_STATUS) == Get(op.body, DATA_UPLOAD_STATUS)
            && MediaPresent(r, env.text) == MediaPresent(op.body, env.text)
  {
  }

  lemma JudgedStatus(op: Op, l: Lookup, env: Env, request: Object, judged: Object)
    requires op.Submit? && !op.post && op.kind != Factory.AppsKind
    requires Prepared(op.body, op.stamp, env.text) == Ok(request)
    requires Judged(op.kind, false, request, l, env.text) == Ok(judged)
    ensures PublishBrought(op, l, env) == (PUBLISH_STATUS in judged, Get(judged, PUBLISH_STATUS))
    ensures Get(judged, DATA_UPLOAD_STATUS) == UploadBrought(op, l, env)
  {
    PreparedStatus(op, env);
  }

  lemma ItemStatus(op: Op, l: Lookup, env: Env)
    requires op.Submit? && !op.post && op.kind != Factory.AppsKind && IsRouted(op) && ParsedItem(op, l, env).Ok?
    ensures var p := ParsedItem(op, l, env).value;
            && PublishBrought(op, l, env) == (PUBLISH_STATUS in p, Get(p, PUBLISH_STATUS))
            && DATA_UPLOAD_STATUS in p && Get(p, DATA_UPLOAD_STATUS) == UploadBrought(op, l, env)
  {
    var request, judged := ItemParts(op, l, env);
    ItemIdentity(op, l, env, request, judged);
    JudgedStatus(op, l, env, request, judged);
    Factory.PrintKeeps(op.kind, judged, env.text);
    Factory.MediaPrintShows(op.kind, judged, env.text);
  }

  /** The statuses of the addressed document after an update of an AI model or data bank. */
  lemma StatusUnderAnswer(w: World, op: Op, l: Lookup, env: Env)
    requires Keyed(w.docs) && op.Submit? && !op.post && op.kind != Factory.AppsKind && IsRouted(op)
    requires Prepared(op.body, op.stamp, env.text).Ok? && !Text.TrimsToEmpty(RequestId(op, env))
    requires Accepted(w, op, l, env)
    requires RequestId(op, env) in w.docs
    ensures var stored, (present, brought) := w.docs[RequestId(op, env)], PublishBrought(op, l, env);
            !Get(stored, PUBLISH_STATUS).JObj? ==>
              Get(After(w, op, l, env), PUBLISH_STATUS)
                == Overwritten(present, brought, Get(stored, PUBLISH_STATUS), env.dropNulls)
    ensures var stored := w.docs[RequestId(op, env)];
            !Get(stored, DATA_UPLOAD_STATUS).JObj? ==>
              Get(After(w, op, l, env), DATA_UPLOAD_STATUS)
                == Overwritten(true, UploadBrought(op, l, env), Get(stored, DATA_UPLOAD_STATUS), env.dropNulls)
  {
    UpdateLands(w, op, l, env);
    ItemStatus(op, l, env);
    var stored, p := w.docs[RequestId(op, env)], ParsedItem(op, l, env).value;
    if !Get(stored, PUBLISH_STATUS).JObj? {
      MergedField(stored, p, PUBLISH_STATUS, env.dropNulls);
    }
    if !Get(stored, DATA_UPLOAD_STATUS).JObj? {
      MergedField(stored, p, DATA_UPLOAD_STATUS, env.dropNulls);
    }
  }

  lemma JudgedCreate(op: Op, l: Lookup, env: Env, request: Object, judged: Object)
    requires op.Submit? && op.post && op.kind != Factory.AppsKind
    requires Prepared(op.body, op.stamp, env.text) == Ok(request)
    requires Judged(op.kind, true, request, l, env.text) == Ok(judged)
    ensures Get(judged, PUBLISH_STATUS) == JStr(PENDING)
    ensures Get(judged, DATA_UPLOAD_STATUS) == JBool(CarriesMedia(op.body, env.text))
  {
    PreparedStatus(op, env);
    WithStatusKeeps(request, CarriesMedia(op.body, env.text), JStr(PENDING));
  }

  /** A created AI model or data bank is pending, and its upload status tells whether it carries media. */
  lemma CreatedStatus(op: Op, l: Lookup, env: Env)
    requires op.Submit? && op.post && op.kind != Factory.AppsKind && IsRouted(op) && ParsedItem(op, l, env).Ok?
    ensures var p := ParsedItem(op, l, env).value;
            && Get(p, PUBLISH_STATUS) == JStr(PENDING)
            && Get(p, DATA_UPLOAD_STATUS) == JBool(CarriesMedia(op.body, env.text))
  {
    var request, judged := ItemParts(op, l, env);
    ItemIdentity(op, l, env, request, judged);
    JudgedCreate(op, l, env, request, judged);
    Factory.PrintKeeps(op.kind, judged, env.text);
  }

  // ---------------------------------------------------------------- all answers at once

  lemma ParsesByFirstType(d: Object, kind: Factory.Kind, text: Json -> string)
    requires FirstType(d) == Some(Factory.TypeName(kind))
    ensures Factory.Parse(d, text) == Factory.PrintAs(kind, d, text)
  {
    match kind {
      case AiModel =>
      case DataBank =>
      case AppsKind =>
    }
  }

  lemma ParsesAsKind(d: Object, kind: Factory.Kind, text: Json -> string)
    requires ItemKind(d) == Some(kind)
    ensures Factory.Parse(d, text) == Factory.PrintAs(kind, d, text)
  {
    KindIsFirstType(d, kind);
    ParsesByFirstType(d, kind, text);
  }

  lemma JudgedTyped(op: Op, l: Lookup, env: Env, request: Object, judged: Object)
    requires op.Submit? && op.kind != Factory.AppsKind && l.Found?
    requires Judged(op.kind, op.post, request, l, env.text) == Ok(judged)
    ensures Get(judged, TYPE) == Get(request, TYPE) && Get(judged, TAGS) == Get(request, TAGS)
    ensures Get(judged, DATA_UPLOAD_STATUS).JBool?
  {
  }

  lemma KindOfParsed(op: Op, l: Lookup, env: Env, request: Object, judged: Object)
    requires op.Submit? && IsRouted(op) && ParsedItem(op, l, env).Ok?
    requires Prepared(op.body, op.stamp, env.text) == Ok(request)
    requires Judged(op.kind, op.post, request, l, env.text) == Ok(judged)
    ensures TypedAs(judged, op.kind) && ItemKind(judged) == Some(op.kind)
  {
    RoutedTypes(op.body, op.kind);
    PreparedKeeps(op.body, op.stamp, env.text);
    JudgedIdentity(op.kind, op.post, request, l, env.text);
    TypedAlike(op.body, judged, op.kind);
    ParsedKind(judged, op.kind, env.text);
  }

  lemma KindAlike(a: Object, b: Object)
    requires Get(a, TYPE) == Get(b, TYPE)
    ensures ItemKind(a) == ItemKind(b)
  {
  }

  /** An update that parses under one item found parses under any other. */
  lemma ParsesUnderAny(op: Op, l: Lookup, other: Lookup, env: Env)
    requires op.Submit? && !op.post && op.kind != Factory.AppsKind && IsRouted(op)
    requires ParsedItem(op, l, env).Ok? && l.Found? && other.Found?
    ensures ParsedItem(op, other, env).Ok?
  {
    var request, judged := ItemParts(op, l, env);
    KindOfParsed(op, l, env, request, judged);
    JudgedTyped(op, l, env, request, judged);
    var again := Judged(op.kind, false, request, other, env.text).value;
    JudgedTyped(op, other, env, request, again);
    KindAlike(judged, again);
    TypedAlike(judged, again, op.kind);
    ParsesAsKind(judged, op.kind, env.text);
    ParsesAsKind(again, op.kind, env.text);
    assert Media.Typed(judged);
  }

  lemma AcceptedUnderAny(w: World, op: Op, l: Lookup, other: Lookup, env: Env)
    requires Keyed(w.docs) && op.Submit? && !op.post && op.kind != Factory.AppsKind && IsRouted(op)
    requires Accepted(w, op, l, env) && l.Found? && other.Found?
    ensures Accepted(w, op, other, env)
  {
    AcceptedParses(w, op, l, env);
    PutAcceptedExactly(w, op, l, env);
    ParsesUnderAny(op, l, other, env);
    PutAcceptedExactly(w, op, other, env);
  }

  lemma FailedLookupRefuses(w: World, op: Op, env: Env)
    requires op.Submit?
    ensures !Accepted(w, op, Failed, env)
  {
  }

  /** The lookup answers an update with any selected document that reads back, and with Missing exactly when
      nothing is selected. */
  lemma AnswersToUpdate(w: World, op: Op, l: Lookup, env: Env)
    requires Keyed(w.docs) && op.Submit? && Prepared(op.body, op.stamp, env.text).Ok?
    requires Answered(w, op, l, env) && Accepted(w, op, l, env)
    ensures Selected(w, op, env) == {} ==> l == Missing
    ensures Selected(w, op, env) != {} ==>
              l.Found? && exists k :: k in Selected(w, op, env) && l == ReadBack(w.docs[k], env)
  {
    AnswersExactly(w, op, l, env);
    FailedLookupRefuses(w, op, env);
  }

  /** Put into a pending document the value leaves it pending. */
  ghost predicate Harmless(present: bool, status: Json, dropNulls: bool) {
    !present || status == JStr(PENDING) || (status.JNull? && dropNulls)
  }

  /** The document does not parse or, read back, brings no other publish status: it has none, one that prints
      as PENDING, or a null that does not reach the store. */
  ghost predicate ReadsPending(d: Object, env: Env) {
    ReadBack(d, env).Found? ==>
      || PUBLISH_STATUS !in d || GetString(d, PUBLISH_STATUS, env.text) == Some(PENDING)
      || (d[PUBLISH_STATUS].JNull? && env.dropNulls)
  }

  lemma SummaryIsNoField(d: Object)
    ensures forall k | k in {ID, NAME, TYPE, PUBLISH_STATUS, DATA_UPLOAD_STATUS, MEDIA_URL} ::
              Get(d - {SUMMARY}, k) == Get(d, k) && (k in d - {SUMMARY} <==> k in d)
  {
  }

  /** An item read back shows the statuses and the media URL of its document. */
  lemma ReadBackShows(d: Object, env: Env)
    requires ReadBack(d, env).Found?
    ensures var item := ReadBack(d, env).item;
            Factory.StatusShown(d, item, env.text) && Get(item, TYPE) == Get(d, TYPE)
  {
    SummaryIsNoField(d);
    Factory.ReadShowsStatus(d - {SUMMARY}, env.text);
  }

  lemma BroughtByDocument(op: Op, d: Object, env: Env)
    requires op.Submit? && ReadBack(d, env).Found?
    ensures var (present, brought) := PublishBrought(op, ReadBack(d, env), env);
            Harmless(present, brought, env.dropNulls) <==> ReadsPending(d, env)
    ensures UploadedWithoutMedia(ReadBack(d, env).item, env) <==> UploadedWithoutMedia(d, env)
  {
    ReadBackShows(d, env);
  }

  ghost predicate StaysPending(w: World, op: Op, env: Env)
    requires op.Submit? && Prepared(op.body, op.stamp, env.text).Ok?
  {
    forall l :: Answered(w, op, l, env) && Accepted(w, op, l, env) ==>
      Get(After(w, op, l, env), PUBLISH_STATUS) == JStr(PENDING)
  }

  /** The update is accepted under the answer and reaches the store. */
  ghost predicate Updates(w: World, op: Op, l: Lookup, env: Env) {
    && Keyed(w.docs) && op.Submit? && !op.post && IsRouted(op)
    && Answered(w, op, l, env) && Accepted(w, op, l, env) && !Text.TrimsToEmpty(RequestId(op, env))
    && RequestId(op, env) in w.docs
  }

  lemma PendingUnderAnswer(w: World, op: Op, l: Lookup, env: Env)
    requires Updates(w, op, l, env) && op.kind != Factory.AppsKind
    requires Get(w.docs[RequestId(op, env)], PUBLISH_STATUS) == JStr(PENDING)
    ensures var (present, brought) := PublishBrought(op, l, env);
            Get(After(w, op, l, env), PUBLISH_STATUS) == JStr(PENDING) <==> Harmless(present, brought, env.dropNulls)
  {
    StatusUnderAnswer(w, op, l, env);
  }

  lemma OtherAnswer(w: World, op: Op, l: Lookup, k: string, env: Env)
    requires Updates(w, op, l, env) && op.kind != Factory.AppsKind
    requires k in Selected(w, op, env) && ReadBack(w.docs[k], env).Found?
    ensures Updates(w, op, ReadBack(w.docs[k], env), env)
  {
    AnswersToUpdate(w, op, l, env);
    AnswersExactly(w, op, ReadBack(w.docs[k], env), env);
    AcceptedUnderAny(w, op, l, ReadBack(w.docs[k], env), env);
  }

  /** An update of a pending AI model or data bank leaves it pending under every answer of the lookup exactly
      when, its name selecting nothing, its body brings no other publish status or, its name selecting
      something, no selected document reads back with another one. */
  lemma PutKeepsPendingExactly(w: World, op: Op, l: Lookup, env: Env)
    requires Updates(w, op, l, env) && op.kind != Factory.AppsKind
    requires Get(w.docs[RequestId(op, env)], PUBLISH_STATUS) == JStr(PENDING)
    ensures StaysPending(w, op, env) <==>
            if Selected(w, op, env) == {} then
              Harmless(PUBLISH_STATUS in op.body, Get(op.body, PUBLISH_STATUS), env.dropNulls)
            else forall k | k in Selected(w, op, env) :: ReadsPending(w.docs[k], env)
  {
    AnswersToUpdate(w, op, l, env);
    if Selected(w, op, env) == {} {
      PendingUnderAnswer(w, op, l, env);
      forall other | Answered(w, op, other, env) && Accepted(w, op, other, env)
        ensures other == l
      {
        AnswersToUpdate(w, op, other, env);
      }
    } else {
      forall k | k in Selected(w, op, env) && ReadBack(w.docs[k], env).Found?
        ensures Updates(w, op, ReadBack(w.docs[k], env), env)
        ensures Get(After(w, op, ReadBack(w.docs[k], env), env), PUBLISH_STATUS) == JStr(PENDING)
           <==> ReadsPending(w.docs[k], env)
      {
        OtherAnswer(w, op, l, k, env);
        BroughtByDocument(op, w.docs[k], env);
        PendingUnderAnswer(w, op, ReadBack(w.docs[k], env), env);
      }
      forall other | Answered(w, op, other, env) && Accepted(w, op, other, env)
        ensures exists k :: k in Selected(w, op, env) && other == ReadBack(w.docs[k], env) && other.Found?
      {
        AnswersToUpdate(w, op, other, env);
      }
    }
  }

  // ---------------------------------------------------------------- the upload status

  ghost predicate UploadFollows(w: World, op: Op, env: Env)
    requires op.Submit? && Prepared(op.body, op.stamp, env.text).Ok?
  {
    forall l :: Answered(w, op, l, env) && Accepted(w, op, l, env) ==>
      Get(After(w, op, l, env), DATA_UPLOAD_STATUS) == JBool(CarriesMedia(op.body, env.text))
  }

  ghost predicate ReadsUploadedWithoutMedia(d: Object, env: Env) {
    ReadBack(d, env).Found? && UploadedWithoutMedia(d, env)
  }

  lemma UploadUnderAnswer(w: World, op: Op, l: Lookup, env: Env)
    requires Updates(w, op, l, env) && op.kind != Factory.AppsKind
    requires !Get(w.docs[RequestId(op, env)], DATA_UPLOAD_STATUS).JObj?
    ensures l.Found? ==>
              (Get(After(w, op, l, env), DATA_UPLOAD_STATUS) == JBool(CarriesMedia(op.body, env.text)) <==>
                 CarriesMedia(op.body, env.text) || !UploadedWithoutMedia(l.item, env))
    ensures l.Missing? ==>
              Get(After(w, op, l, env), DATA_UPLOAD_STATUS)
                == Overwritten(true, Get(op.body, DATA_UPLOAD_STATUS),
                               Get(w.docs[RequestId(op, env)], DATA_UPLOAD_STATUS), env.dropNulls)
  {
    StatusUnderAnswer(w, op, l, env);
  }

  /** After an update of an AI model or data bank the upload status tells, under every answer of the lookup,
      whether the update carried media exactly when, its name selecting nothing, the status of its own body
      tells so or, its name selecting something, it carried media or no selected document reads back as
      uploaded without media. */
  lemma UploadFollowsPutExactly(w: World, op: Op, l: Lookup, env: Env)
    requires Updates(w, op, l, env) && op.kind != Factory.AppsKind
    requires !Get(w.docs[RequestId(op, env)], DATA_UPLOAD_STATUS).JObj?
    ensures UploadFollows(w, op, env) <==>
            if Selected(w, op, env) == {} then
              Overwritten(true, Get(op.body, DATA_UPLOAD_STATUS), Get(w.docs[RequestId(op, env)], DATA_UPLOAD_STATUS),
                          env.dropNulls) == JBool(CarriesMedia(op.body, env.text))
            else
              || CarriesMedia(op.body, env.text)
              || forall k | k in Selected(w, op, env) :: !ReadsUploadedWithoutMedia(w.docs[k], env)
  {
    AnswersToUpdate(w, op, l, env);
    if Selected(w, op, env) == {} {
      UploadUnderAnswer(w, op, l, env);
      forall other | Answered(w, op, other, env) && Accepted(w, op, other, env)
        ensures other == l
      {
        AnswersToUpdate(w, op, other, env);
      }
    } else {
      forall k | k in Selected(w, op, env) && ReadBack(w.docs[k], env).Found?
        ensures Updates(w, op, ReadBack(w.docs[k], env), env)
        ensures var status := Get(After(w, op, ReadBack(w.docs[k], env), env), DATA_UPLOAD_STATUS);
                status == JBool(CarriesMedia(op.body, env.text)) <==>
                CarriesMedia(op.body, env.text) || !ReadsUploadedWithoutMedia(w.docs[k], env)
      {
        OtherAnswer(w, op, l, k, env);
        BroughtByDocument(op, w.docs[k], env);
        UploadUnderAnswer(w, op, ReadBack(w.docs[k], env), env);
      }
      forall other | Answered(w, op, other, env) && Accepted(w, op, other, env)
        ensures exists k :: k in Selected(w, op, env) && other == ReadBack(w.docs[k], env) && other.Found?
      {
        AnswersToUpdate(w, op, other, env);
      }
    }
  }

  // ---------------------------------------------------------------- unique names

  lemma ReplacedUnique(docs: Docs, key: string, d: Object)
    requires UniqueNames(docs)
    ensures UniqueNames(docs[key := d]) <==> forall k | k in docs && k != key :: !SameItem(docs[k], d)
  {
    var after := docs[key := d];
    if UniqueNames(after) {
      forall k | k in docs && k != key
        ensures !SameItem(docs[k], d)
      {
        assert after[k] == docs[k] && after[key] == d;
      }
    }
  }

  /** Another key holds an item of the kind and name. */
  ghost predicate TakenElsewhere(docs: Docs, key: string, kind: Factory.Kind, name: string) {
    exists k :: k in docs && k != key && ItemKind(docs[k]) == Some(kind) && Get(docs[k], NAME) == JStr(name)
  }

  lemma WrittenItem(stored: Object, p: Object, dropNulls: bool)
    requires ItemKind(p).Some? && Get(p, NAME).JStr?
    ensures SameItem(Sent(p, dropNulls), p) && SameItem(MergeIn(stored, Sent(p, dropNulls)), p)
  {
    SentKeeps(p, dropNulls, TYPE);
    SentKeeps(p, dropNulls, NAME);
    MergedTakes(stored, Sent(p, dropNulls), TYPE);
    MergedTakes(stored, Sent(p, dropNulls), NAME);
    KindAlike(Sent(p, dropNulls), p);
    KindAlike(MergeIn(stored, Sent(p, dropNulls)), p);
  }

  lemma ReplacedItem(docs: Docs, key: string, d: Object, kind: Factory.Kind, name: string)
    requires UniqueNames(docs) && ItemKind(d) == Some(kind) && Get(d, NAME) == JStr(name)
    ensures UniqueNames(docs[key := d]) <==> !TakenElsewhere(docs, key, kind, name)
  {
    ReplacedUnique(docs, key, d);
  }

  /** An update that reaches the store keeps the names unique exactly when no other key holds an item of its
      kind and name. */
  lemma PutKeepsNamesUniqueExactly(w: World, op: Op, l: Lookup, env: Env)
    requires Updates(w, op, l, env) && UniqueNames(w.docs)
    ensures UniqueNames(AfterSubmit(w, op, l, env).docs)
       <==> !TakenElsewhere(w.docs, RequestId(op, env), op.kind, RequestName(op, env))
  {
    var key := RequestId(op, env);
    UpdateLands(w, op, l, env);
    var request, judged := ItemParts(op, l, env);
    ItemIdentity(op, l, env, request, judged);
    var p := ParsedItem(op, l, env).value;
    WrittenItem(w.docs[key], p, env.dropNulls);
    ReplacedItem(w.docs, key, MergeIn(w.docs[key], Sent(p, env.dropNulls)), op.kind, RequestName(op, env));
  }

  lemma CreateLands(w: World, op: Op, l: Lookup, env: Env)
    requires Keyed(w.docs) && op.Submit? && op.post && IsRouted(op) && Accepted(w, op, l, env)
    requires Prepared(op.body, op.stamp, env.text).Ok?
    ensures ParsedItem(op, l, env).Ok? && RequestId(op, env) !in w.docs
    ensures AfterSubmit(w, op, l, env).docs
         == w.docs[RequestId(op, env) := Sent(ParsedItem(op, l, env).value, env.dropNulls)]
  {
    WriteOfItem(w, op, l, env);
    var request, judged := ItemParts(op, l, env);
    ItemIdentity(op, l, env, request, judged);
    AcceptedParses(w, op, l, env);
    CreateCheckExactly(w.docs, ParsedItem(op, l, env).value, env.e);
    SubmitLands(w, op, l, env);
  }

  /** An accepted create keeps the names unique exactly when no document holds an item of its kind and name. */
  lemma CreateKeepsNamesUniqueExactly(w: World, op: Op, l: Lookup, env: Env)
    requires Keyed(w.docs) && UniqueNames(w.docs) && op.Submit? && op.post && IsRouted(op)
    requires Answered(w, op, l, env) && Accepted(w, op, l, env)
    ensures UniqueNames(AfterSubmit(w, op, l, env).docs) <==> !Taken(w.docs, op.kind, RequestName(op, env))
  {
    CreateLands(w, op, l, env);
    var request, judged := ItemParts(op, l, env);
    ItemIdentity(op, l, env, request, judged);
    var p := ParsedItem(op, l, env).value;
    WrittenItem(map[], p, env.dropNulls);
    ReplacedItem(w.docs, RequestId(op, env), Sent(p, env.dropNulls), op.kind, RequestName(op, env));
  }
}
