/** Chooses the item class from the type list. */
module ItemFactory {
  import opened Fields
  import opened Json
  import Apps = AppsItem
  import Media = MediaItems

  datatype Kind = AiModel | DataBank | AppsKind

  function TypeName(kind: Kind): string {
    match kind
    case AiModel => AI_MODEL
    case DataBank => DATA_BANK
    case AppsKind => APPS
  }

  datatype FactoryError = NoTypeList | NoType | UnsupportedType | BadField

  /** Parses with the class of the given kind and prints the item. */
  function PrintAs(kind: Kind, json: Object, text: Json -> string): Result<Object, FactoryError> {
    match kind
    case AiModel => if Media.Typed(json) then Ok(Media.AiModelPrint(json, text)) else Err(BadField)
    case DataBank => if Media.Typed(json) then Ok(Media.DataBankPrint(json, text)) else Err(BadField)
    case AppsKind =>
      var item := Apps.FromJson(json, text);
      if item.Ok? then Ok(Apps.ToJson(item.value)) else Err(BadField)
  }

  /** Parsing a request body: the first type decides. */
  function Parse(body: Object, text: Json -> string): Result<Object, FactoryError> {
    if !Get(body, TYPE).JArr? then Err(NoTypeList)
    else
      var types := Get(body, TYPE).elems;
      if types == [] then Err(NoType)
      else if types[0] == JStr(DATA_BANK) then PrintAs(DataBank, body, text)
      else if types[0] == JStr(APPS) then PrintAs(AppsKind, body, text)
      else if types[0] == JStr(AI_MODEL) then PrintAs(AiModel, body, text)
      else Err(UnsupportedType)
  }

  /** Reading a stored document: any listed type decides, AI model first. */
  function From(json: Object, text: Json -> string): Result<Object, FactoryError> {
    if !Get(json, TYPE).JArr? then Err(NoTypeList)
    else
      var types := Get(json, TYPE).elems;
      if JStr(AI_MODEL) in types then PrintAs(AiModel, json, text)
      else if JStr(APPS) in types then PrintAs(AppsKind, json, text)
      else if JStr(DATA_BANK) in types then PrintAs(DataBank, json, text)
      else Err(UnsupportedType)
  }

  /** A list that names exactly one item type leaves no choice. */
  lemma FromChooses(json: Object, kind: Kind, text: Json -> string)
    requires Get(json, TYPE).JArr?
    requires forall k: Kind :: JStr(TypeName(k)) in Get(json, TYPE).elems <==> k == kind
    ensures From(json, text) == PrintAs(kind, json, text)
  {
    assert JStr(TypeName(AiModel)) in Get(json, TYPE).elems <==> kind == AiModel;
    assert JStr(TypeName(AppsKind)) in Get(json, TYPE).elems <==> kind == AppsKind;
    assert JStr(TypeName(DataBank)) in Get(json, TYPE).elems <==> kind == DataBank;
  }

  /** What a parse and print keeps of the fields that identify an item. */
  ghost predicate IdentityKept(json: Object, printed: Object, text: Json -> string) {
    && Get(printed, ID) == StrJson(GetString(json, ID, text))
    && Get(printed, NAME) == StrJson(GetString(json, NAME, text))
    && Get(printed, TYPE) == Get(json, TYPE)
  }

  /** What a parse and print keeps of the fields that drive publishing. */
  ghost predicate StatusKept(json: Object, printed: Object, text: Json -> string) {
    && Get(printed, MEDIA_URL) == StrJson(GetString(json, MEDIA_URL, text))
    && Get(printed, DATA_UPLOAD_STATUS) == Get(json, DATA_UPLOAD_STATUS)
    && Get(printed, PUBLISH_STATUS) == Get(json, PUBLISH_STATUS)
    && (PUBLISH_STATUS in printed <==> PUBLISH_STATUS in json)
  }

  /** The media classes know all these fields but the publish status. */
  ghost predicate KnowsAllButPublishing(known: set<string>) {
    {ID, NAME, TYPE, MEDIA_URL, DATA_UPLOAD_STATUS} <= known && PUBLISH_STATUS !in known
  }

  lemma AiModelKnows()
    ensures KnowsAllButPublishing(Media.AI_MODEL_KEYS)
  {
  }

  lemma DataBankKnows()
    ensures KnowsAllButPublishing(Media.DATA_BANK_KEYS)
  {
  }

  lemma MediaKeeps(json: Object, printed: Object, known: set<string>, text: Json -> string)
    requires Media.PrintOf(json, printed, known, text) && KnowsAllButPublishing(known)
    ensures IdentityKept(json, printed, text) && StatusKept(json, printed, text)
  {
  }

  lemma MediaPrintKeeps(kind: Kind, json: Object, text: Json -> string)
    requires kind != AppsKind && PrintAs(kind, json, text).Ok?
    ensures IdentityKept(json, PrintAs(kind, json, text).value, text)
    ensures StatusKept(json, PrintAs(kind, json, text).value, text)
  {
    if kind == AiModel {
      AiModelKnows();
      Media.AiModelPrintOf(json, text);
      MediaKeeps(json, Media.AiModelPrint(json, text), Media.AI_MODEL_KEYS, text);
    } else {
      DataBankKnows();
      Media.DataBankPrintOf(json, text);
      MediaKeeps(json, Media.DataBankPrint(json, text), Media.DATA_BANK_KEYS, text);
    }
  }

  /** A printed AI model or data bank has every known field, if only as null. */
  lemma MediaPrintShows(kind: Kind, json: Object, text: Json -> string)
    requires kind != AppsKind && PrintAs(kind, json, text).Ok?
    ensures DATA_UPLOAD_STATUS in PrintAs(kind, json, text).value
  {
    if kind == AiModel {
      AiModelKnows();
      Media.AiModelPrintOf(json, text);
    } else {
      DataBankKnows();
      Media.DataBankPrintOf(json, text);
    }
  }

  lemma AppsKeepsIdentity(json: Object, text: Json -> string)
    requires Apps.FromJson(json, text).Ok?
    ensures IdentityKept(json, Apps.ToJson(Apps.FromJson(json, text).value), text)
  {
    Apps.ParsedFields(json, text);
    Apps.PrintedShows(Apps.FromJson(json, text).value);
  }

  /** Every kind of item keeps the id, name and types it was parsed with. An AI model or data bank also
      keeps its media URL, upload status and publish status: the publish status read back from a stored
      document is the one stored, though neither class knows the field. */
  lemma PrintKeeps(kind: Kind, json: Object, text: Json -> string)
    requires PrintAs(kind, json, text).Ok?
    ensures IdentityKept(json, PrintAs(kind, json, text).value, text)
    ensures kind != AppsKind ==> StatusKept(json, PrintAs(kind, json, text).value, text)
  {
    if kind == AppsKind {
      AppsKeepsIdentity(json, text);
    } else {
      MediaPrintKeeps(kind, json, text);
    }
  }

  /** The statuses and the media URL a printed item shows are those of the JSON it was read from. */
  ghost predicate StatusShown(json: Object, printed: Object, text: Json -> string) {
    && GetString(printed, MEDIA_URL, text) == GetString(json, MEDIA_URL, text)
    && Get(printed, DATA_UPLOAD_STATUS) == Get(json, DATA_UPLOAD_STATUS)
    && Get(printed, PUBLISH_STATUS) == Get(json, PUBLISH_STATUS)
    && (PUBLISH_STATUS in printed <==> PUBLISH_STATUS in json)
  }

  lemma StatusKeysAreUnknown()
    ensures {PUBLISH_STATUS, DATA_UPLOAD_STATUS, MEDIA_URL} !! Apps.KNOWN_FIELDS
  {
  }

  lemma AppsShowsStatus(json: Object, text: Json -> string)
    requires Apps.FromJson(json, text).Ok?
    ensures StatusShown(json, Apps.ToJson(Apps.FromJson(json, text).value), text)
    ensures MEDIA_URL in Apps.ToJson(Apps.FromJson(json, text).value) <==> MEDIA_URL in json
  {
    StatusKeysAreUnknown();
    Apps.UnknownKeyKept(json, text, PUBLISH_STATUS);
    Apps.UnknownKeyKept(json, text, DATA_UPLOAD_STATUS);
    Apps.UnknownKeyKept(json, text, MEDIA_URL);
  }

  lemma KindShowsStatus(kind: Kind, json: Object, text: Json -> string)
    requires PrintAs(kind, json, text).Ok?
    ensures StatusShown(json, PrintAs(kind, json, text).value, text)
    ensures IdentityKept(json, PrintAs(kind, json, text).value, text)
  {
    PrintKeeps(kind, json, text);
    if kind == AppsKind {
      AppsShowsStatus(json, text);
    }
  }

  /** Whatever class a document is read with, the item shows its statuses, media URL, id, name and types. */
  lemma ReadShowsStatus(json: Object, text: Json -> string)
    requires From(json, text).Ok?
    ensures StatusShown(json, From(json, text).value, text) && IdentityKept(json, From(json, text).value, text)
  {
    var types := Get(json, TYPE).elems;
    var kind := if JStr(AI_MODEL) in types then AiModel else if JStr(APPS) in types then AppsKind else DataBank;
    KindShowsStatus(kind, json, text);
  }

  /** The fields the class of the kind insists on. */
  predicate Readable(kind: Kind, json: Object) {
    if kind == AppsKind then
      && Get(json, TYPE).JArr? && Get(json, TAGS).JArr?
      && ("sections" in json ==>
            json["sections"].JArr? && forall s | s in json["sections"].elems :: Apps.Readable(s))
    else
      && (Get(json, TYPE).JNull? || Get(json, TYPE).JArr?) && (Get(json, TAGS).JNull? || Get(json, TAGS).JArr?)
      && (Get(json, DATA_UPLOAD_STATUS).JNull? || Get(json, DATA_UPLOAD_STATUS).JBool?)
  }

  lemma ReadableExactly(kind: Kind, json: Object, text: Json -> string)
    ensures PrintAs(kind, json, text).Ok? <==> Readable(kind, json)
  {
    Apps.ParsesExactly(json, text);
  }

  /** A body is parsed with the class of its first type, and parses exactly when that type is an item type
      whose class can read it. */
  lemma ParseExactly(body: Object, text: Json -> string)
    ensures forall kind: Kind, rest: seq<Json> :: Get(body, TYPE) == JArr([JStr(TypeName(kind))] + rest) ==>
              Parse(body, text) == PrintAs(kind, body, text)
    ensures Parse(body, text).Ok? <==>
              exists kind: Kind, rest: seq<Json> ::
                Get(body, TYPE) == JArr([JStr(TypeName(kind))] + rest) && Readable(kind, body)
  {
    forall kind: Kind, rest: seq<Json> | Get(body, TYPE) == JArr([JStr(TypeName(kind))] + rest)
      ensures Parse(body, text) == PrintAs(kind, body, text) && (Parse(body, text).Ok? <==> Readable(kind, body))
    {
      ParsedByFirst(body, kind, text);
      ReadableExactly(kind, body, text);
    }
    if Parse(body, text).Ok? {
      var types := Get(body, TYPE).elems;
      var first := types[0];
      var kind := if first == JStr(DATA_BANK) then DataBank else if first == JStr(APPS) then AppsKind else AiModel;
      assert types == [JStr(TypeName(kind))] + types[1..];
      ReadableExactly(kind, body, text);
    }
  }

  /** Why a body does not parse: it has no type list, an empty one, a first type that is no item type, or a field
      its class cannot read. */
  lemma ParseFaults(body: Object, text: Json -> string)
    ensures !Get(body, TYPE).JArr? ==> Parse(body, text) == Err(NoTypeList)
    ensures Get(body, TYPE) == JArr([]) ==> Parse(body, text) == Err(NoType)
    ensures Get(body, TYPE).JArr? && Get(body, TYPE).elems != []
            && (forall kind: Kind :: Get(body, TYPE).elems[0] != JStr(TypeName(kind))) ==>
              Parse(body, text) == Err(UnsupportedType)
    ensures forall kind: Kind :: !Readable(kind, body) ==> PrintAs(kind, body, text) == Err(BadField)
  {
    assert TypeName(AiModel) == AI_MODEL && TypeName(DataBank) == DATA_BANK && TypeName(AppsKind) == APPS;
    forall kind: Kind
      ensures !Readable(kind, body) ==> PrintAs(kind, body, text) == Err(BadField)
    {
      ReadableExactly(kind, body, text);
    }
  }

  /** Why a document is not read back: it has no type list or lists no item type. */
  lemma FromFaults(json: Object, text: Json -> string)
    ensures !Get(json, TYPE).JArr? ==> From(json, text) == Err(NoTypeList)
    ensures Get(json, TYPE).JArr? && (forall kind: Kind :: JStr(TypeName(kind)) !in Get(json, TYPE).elems) ==>
              From(json, text) == Err(UnsupportedType)
  {
    assert TypeName(AiModel) == AI_MODEL && TypeName(DataBank) == DATA_BANK && TypeName(AppsKind) == APPS;
  }

  lemma ParsedByFirst(body: Object, kind: Kind, text: Json -> string)
    requires Get(body, TYPE).JArr? && Get(body, TYPE).elems != [] && Get(body, TYPE).elems[0] == JStr(TypeName(kind))
    ensures Parse(body, text) == PrintAs(kind, body, text)
  {
    match kind {
      case AiModel =>
      case DataBank =>
      case AppsKind =>
    }
  }

  /** The kind a stored document is read as: an AI model if it lists that type, else an apps item if it lists
      that one, else a data bank. */
  ghost predicate ReadAs(json: Object, kind: Kind) {
    && Get(json, TYPE).JArr? && JStr(TypeName(kind)) in Get(json, TYPE).elems
    && (kind != AiModel ==> JStr(AI_MODEL) !in Get(json, TYPE).elems)
    && (kind == DataBank ==> JStr(APPS) !in Get(json, TYPE).elems)
  }

  /** A document is read with that class, and reads back exactly when the class can read it. */
  lemma FromExactly(json: Object, text: Json -> string)
    ensures forall kind: Kind | ReadAs(json, kind) :: From(json, text) == PrintAs(kind, json, text)
    ensures From(json, text).Ok? <==> exists kind: Kind :: ReadAs(json, kind) && Readable(kind, json)
  {
    ReadableExactly(AiModel, json, text);
    ReadableExactly(DataBank, json, text);
    ReadableExactly(AppsKind, json, text);
    assert ReadAs(json, AiModel) || ReadAs(json, AppsKind) || ReadAs(json, DataBank) || From(json, text).Err?;
  }
}
