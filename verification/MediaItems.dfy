/** The AI model and data bank items: known fields are read one by one, every other key is kept
    aside, and printing merges the two back. */
module MediaItems {
  import opened Fields
  import opened Json


  datatype ItemError = WrongType

  function GetList(o: Object, key: string): Result<Option<seq<Json>>, ItemError> {
    match Get(o, key)
    case JNull => Ok(None)
    case JArr(elems) => Ok(Some(elems))
    case _ => Err(WrongType)
  }

  function GetBool(o: Object, key: string): Result<Option<bool>, ItemError> {
    match Get(o, key)
    case JNull => Ok(None)
    case JBool(b) => Ok(Some(b))
    case _ => Err(WrongType)
  }

  /** The lists and the upload status have the types the parser casts them to. */
  predicate Typed(json: Object) {
    && (Get(json, TYPE).JNull? || Get(json, TYPE).JArr?)
    && (Get(json, TAGS).JNull? || Get(json, TAGS).JArr?)
    && (Get(json, DATA_UPLOAD_STATUS).JNull? || Get(json, DATA_UPLOAD_STATUS).JBool?)
  }

  const NOT_STRINGS: set<string> := {TYPE, TAGS, DATA_UPLOAD_STATUS}

  function Extras(json: Object, known: set<string>): Object {
    map k | k in json && k !in known :: json[k]
  }

  /** What a known field prints after it was read. */
  function Reread(json: Object, key: string, text: Json -> string): Json {
    if key in NOT_STRINGS then Get(json, key) else StrJson(GetString(json, key, text))
  }

  /** Nothing is lost and only nulls are added: the printed object agrees with the parsed one on every key
      it had, string fields being printed as strings, and every key it adds is a known one holding null. */
  predicate Conserves(json: Object, printed: Object, known: set<string>, text: Json -> string) {
    && (forall k | k in json :: k in printed && printed[k] == if k in known then Reread(json, k, text) else json[k])
    && (forall k | k in printed && k !in json :: k in known && printed[k] == JNull)
  }

  /** The printed object, key by key. */
  ghost predicate PrintOf(json: Object, printed: Object, known: set<string>, text: Json -> string) {
    && printed.Keys == json.Keys + known
    && forall k | k in printed :: printed[k] == if k in known then Reread(json, k, text) else json[k]
  }

  lemma PrintOfConserves(json: Object, printed: Object, known: set<string>, text: Json -> string)
    requires PrintOf(json, printed, known, text)
    ensures Conserves(json, printed, known, text)
  {
  }

  lemma PrintOfTwice(json: Object, once: Object, twice: Object, known: set<string>, text: Json -> string)
    requires PrintOf(json, once, known, text) && PrintOf(once, twice, known, text)
    ensures twice == once
  {
  }

  /** The key loop of both parsers. */
  method CollectExtras(json: Object, known: set<string>) returns (extras: Object)
    ensures extras == Extras(json, known)
  {
    extras := map[];
    var pending := json.Keys;
    while pending != {}
      invariant pending <= json.Keys
      invariant extras == map k | k in json && k !in known && k !in pending :: json[k]
      decreases pending
    {
      var key :| key in pending;
      if key !in known {
        extras := extras[key := json[key]];
      }
      pending := pending - {key};
    }
  }

  // ---------------------------------------------------------------- AI model

  const AI_MODEL_KEYS: set<string> := {
    "name", TYPE, "label", "shortDescription", "description", TAGS, "accessPolicy", "organizationType",
    "organizationId", "industry", "department", "id", "itemStatus", "itemCreatedAt", "@context", "modelType",
    "fileFormat", "uploadedBy", "license", "fileSize", DATA_UPLOAD_STATUS, "mediaURL"}

  /** The entries toJson puts, from the two ways fromJson reads a field. */
  function AiModelEntries(asString: string -> Json, asIs: string -> Json): Object {
    map[
      "name" := asString("name"), TYPE := asIs(TYPE),
      "label" := asString("label"),
      "shortDescription" := asString("shortDescription"),
      "description" := asString("description"), TAGS := asIs(TAGS),
      "accessPolicy" := asString("accessPolicy"),
      "organizationType" := asString("organizationType"),
      "organizationId" := asString("organizationId"),
      "industry" := asString("industry"),
      "department" := asString("department"),
      "id" := asString("id"),
      "itemStatus" := asString("itemStatus"),
      "itemCreatedAt" := asString("itemCreatedAt"),
      "@context" := asString("@context"),
      "modelType" := asString("modelType"),
      "fileFormat" := asString("fileFormat"),
      "uploadedBy" := asString("uploadedBy"),
      "license" := asString("license"),
      "fileSize" := asString("fileSize"), DATA_UPLOAD_STATUS := asIs(DATA_UPLOAD_STATUS),
      "mediaURL" := asString("mediaURL")]
  }

  function AiModelFields(json: Object, text: Json -> string): Object {
    AiModelEntries(key => StrJson(GetString(json, key, text)), key => Get(json, key))
  }

  class AiModelItem {
    var name: Option<string>
    var displayLabel: Option<string>
    var shortDescription: Option<string>
    var description: Option<string>
    var accessPolicy: Option<string>
    var organizationType: Option<string>
    var organizationId: Option<string>
    var industry: Option<string>
    var department: Option<string>
    var id: Option<string>
    var itemStatus: Option<string>
    var itemCreatedAt: Option<string>
    var context: Option<string>
    var modelType: Option<string>
    var fileFormat: Option<string>
    var uploadedBy: Option<string>
    var license: Option<string>
    var fileSize: Option<string>
    var mediaURL: Option<string>
    var types: Option<seq<Json>>
    var tags: Option<seq<Json>>
    var dataUploadStatus: Option<bool>
    var additionalFields: Object

    constructor (json: Object, types: Option<seq<Json>>, tags: Option<seq<Json>>, dataUploadStatus: Option<bool>,
                 additionalFields: Object, text: Json -> string)
      requires ListJson(types) == Get(json, TYPE) && ListJson(tags) == Get(json, TAGS)
      requires BoolJson(dataUploadStatus) == Get(json, DATA_UPLOAD_STATUS)
      ensures Fields() == AiModelFields(json, text) && this.additionalFields == additionalFields
    {
      name := GetString(json, "name", text);
      displayLabel := GetString(json, "label", text);
      shortDescription := GetString(json, "shortDescription", text);
      description := GetString(json, "description", text);
      accessPolicy := GetString(json, "accessPolicy", text);
      organizationType := GetString(json, "organizationType", text);
      organizationId := GetString(json, "organizationId", text);
      industry := GetString(json, "industry", text);
      department := GetString(json, "department", text);
      id := GetString(json, "id", text);
      itemStatus := GetString(json, "itemStatus", text);
      itemCreatedAt := GetString(json, "itemCreatedAt", text);
      context := GetString(json, "@context", text);
      modelType := GetString(json, "modelType", text);
      fileFormat := GetString(json, "fileFormat", text);
      uploadedBy := GetString(json, "uploadedBy", text);
      license := GetString(json, "license", text);
      fileSize := GetString(json, "fileSize", text);
      mediaURL := GetString(json, "mediaURL", text);
      this.types, this.tags, this.dataUploadStatus := types, tags, dataUploadStatus;
      this.additionalFields := additionalFields;
    }

    /** The known fields, under the keys they print to. */
    ghost function Fields(): Object
      reads this
    {
      map[
        "name" := StrJson(name), TYPE := ListJson(types), "label" := StrJson(displayLabel),
        "shortDescription" := StrJson(shortDescription), "description" := StrJson(description),
        TAGS := ListJson(tags), "accessPolicy" := StrJson(accessPolicy),
        "organizationType" := StrJson(organizationType), "organizationId" := StrJson(organizationId),
        "industry" := StrJson(industry), "department" := StrJson(department), "id" := StrJson(id),
        "itemStatus" := StrJson(itemStatus), "itemCreatedAt" := StrJson(itemCreatedAt),
        "@context" := StrJson(context), "modelType" := StrJson(modelType), "fileFormat" := StrJson(fileFormat),
        "uploadedBy" := StrJson(uploadedBy), "license" := StrJson(license), "fileSize" := StrJson(fileSize),
        DATA_UPLOAD_STATUS := BoolJson(dataUploadStatus), "mediaURL" := StrJson(mediaURL)]
    }

    static method FromJson(json: Object, text: Json -> string) returns (r: Result<AiModelItem, ItemError>)
      ensures r.Ok? <==> Typed(json)
      ensures r.Ok? ==> fresh(r.value)
      ensures r.Ok? ==> r.value.Fields() == AiModelFields(json, text)
      ensures r.Ok? ==> r.value.additionalFields == Extras(json, AI_MODEL_KEYS)
    {
      var types :- GetList(json, TYPE);
      var tags :- GetList(json, TAGS);
      var dataUploadStatus :- GetBool(json, DATA_UPLOAD_STATUS);
      var extras := CollectExtras(json, AI_MODEL_KEYS);
      var item := new AiModelItem(json, types, tags, dataUploadStatus, extras, text);
      return Ok(item);
    }

    method ToJson() returns (json: Object)
      ensures json == MergeIn(Fields(), additionalFields)
    {
      json := map[];
      json := json["name" := StrJson(name)];
      json := json[TYPE := ListJson(types)];
      json := json["label" := StrJson(displayLabel)];
      json := json["shortDescription" := StrJson(shortDescription)];
      json := json["description" := StrJson(description)];
      json := json[TAGS := ListJson(tags)];
      json := json["accessPolicy" := StrJson(accessPolicy)];
      json := json["organizationType" := StrJson(organizationType)];
      json := json["organizationId" := StrJson(organizationId)];
      json := json["industry" := StrJson(industry)];
      json := json["department" := StrJson(department)];
      json := json["id" := StrJson(id)];
      json := json["itemStatus" := StrJson(itemStatus)];
      json := json["itemCreatedAt" := StrJson(itemCreatedAt)];
      json := json["@context" := StrJson(context)];
      json := json["modelType" := StrJson(modelType)];
      json := json["fileFormat" := StrJson(fileFormat)];
      json := json["uploadedBy" := StrJson(uploadedBy)];
      json := json["license" := StrJson(license)];
      json := json["fileSize" := StrJson(fileSize)];
      json := json[DATA_UPLOAD_STATUS := BoolJson(dataUploadStatus)];
      json := json["mediaURL" := StrJson(mediaURL)];
      assert json == Fields();
      json := MergeIn(json, additionalFields);
    }
  }

  lemma AiModelEntry(asString: string -> Json, asIs: string -> Json, k: string)
    ensures k in AiModelEntries(asString, asIs) <==> k in AI_MODEL_KEYS
    ensures k in AI_MODEL_KEYS ==>
              AiModelEntries(asString, asIs)[k] == if k in NOT_STRINGS then asIs(k) else asString(k)
  {
  }

  lemma AiModelField(json: Object, text: Json -> string, k: string)
    ensures k in AiModelFields(json, text) <==> k in AI_MODEL_KEYS
    ensures k in AI_MODEL_KEYS ==> AiModelFields(json, text)[k] == Reread(json, k, text)
  {
    AiModelEntry(key => StrJson(GetString(json, key, text)), key => Get(json, key), k);
  }

  function AiModelPrint(json: Object, text: Json -> string): Object {
    MergeIn(AiModelFields(json, text), Extras(json, AI_MODEL_KEYS))
  }

  lemma AiModelKey(json: Object, text: Json -> string, k: string)
    ensures k in AiModelPrint(json, text) <==> k in json || k in AI_MODEL_KEYS
    ensures k in AI_MODEL_KEYS ==> AiModelPrint(json, text)[k] == Reread(json, k, text)
    ensures k in json && k !in AI_MODEL_KEYS ==> AiModelPrint(json, text)[k] == json[k]
  {
    AiModelField(json, text, k);
  }

  lemma AiModelPrintOf(json: Object, text: Json -> string)
    ensures PrintOf(json, AiModelPrint(json, text), AI_MODEL_KEYS, text)
  {
    forall k {
      AiModelKey(json, text, k);
    }
  }

  /** Parsing and printing keeps everything the object had, and doing it again changes nothing. */
  lemma AiModelConserves(json: Object, text: Json -> string)
    ensures Conserves(json, AiModelPrint(json, text), AI_MODEL_KEYS, text)
    ensures AiModelPrint(AiModelPrint(json, text), text) == AiModelPrint(json, text)
  {
    var once := AiModelPrint(json, text);
    var twice := AiModelPrint(once, text);
    var known := AI_MODEL_KEYS;
    AiModelPrintOf(json, text);
    AiModelPrintOf(once, text);
    PrintOfConserves(json, once, known, text);
    PrintOfTwice(json, once, twice, known, text);
  }

  // ---------------------------------------------------------------- data bank

  const DATA_BANK_KEYS: set<string> := {
    "name", TYPE, "label", "shortDescription", "description", TAGS, "accessPolicy", "organizationType",
    "organizationId", "industry", "department", "id", "itemStatus", "itemCreatedAt", "@context", "fileFormat",
    "geoCoverage", "yearRange", "verifiedBy", "uploadFrequency", "license", "uploadedBy", DATA_UPLOAD_STATUS,
    "mediaURL"}

  /** The entries toJson puts, from the two ways fromJson reads a field. */
  function DataBankEntries(asString: string -> Json, asIs: string -> Json): Object {
    map[
      "name" := asString("name"), TYPE := asIs(TYPE),
      "label" := asString("label"),
      "shortDescription" := asString("shortDescription"),
      "description" := asString("description"), TAGS := asIs(TAGS),
      "accessPolicy" := asString("accessPolicy"),
      "organizationType" := asString("organizationType"),
      "organizationId" := asString("organizationId"),
      "industry" := asString("industry"),
      "department" := asString("department"),
      "id" := asString("id"),
      "itemStatus" := asString("itemStatus"),
      "itemCreatedAt" := asString("itemCreatedAt"),
      "@context" := asString("@context"),
      "fileFormat" := asString("fileFormat"),
      "geoCoverage" := asString("geoCoverage"),
      "yearRange" := asString("yearRange"),
      "verifiedBy" := asString("verifiedBy"),
      "uploadFrequency" := asString("uploadFrequency"),
      "license" := asString("license"),
      "uploadedBy" := asString("uploadedBy"), DATA_UPLOAD_STATUS := asIs(DATA_UPLOAD_STATUS),
      "mediaURL" := asString("mediaURL")]
  }

  function DataBankFields(json: Object, text: Json -> string): Object {
    DataBankEntries(key => StrJson(GetString(json, key, text)), key => Get(json, key))
  }

  class DataBankItem {
    var name: Option<string>
    var displayLabel: Option<string>
    var shortDescription: Option<string>
    var description: Option<string>
    var accessPolicy: Option<string>
    var organizationType: Option<string>
    var organizationId: Option<string>
    var industry: Option<string>
    var department: Option<string>
    var id: Option<string>
    var itemStatus: Option<string>
    var itemCreatedAt: Option<string>
    var context: Option<string>
    var fileFormat: Option<string>
    var geoCoverage: Option<string>
    var yearRange: Option<string>
    var verifiedBy: Option<string>
    var uploadFrequency: Option<string>
    var license: Option<string>
    var uploadedBy: Option<string>
    var mediaURL: Option<string>
    var types: Option<seq<Json>>
    var tags: Option<seq<Json>>
    var dataUploadStatus: Option<bool>
    var additionalFields: Object

    constructor (json: Object, types: Option<seq<Json>>, tags: Option<seq<Json>>, dataUploadStatus: Option<bool>,
                 additionalFields: Object, text: Json -> string)
      requires ListJson(types) == Get(json, TYPE) && ListJson(tags) == Get(json, TAGS)
      requires BoolJson(dataUploadStatus) == Get(json, DATA_UPLOAD_STATUS)
      ensures Fields() == DataBankFields(json, text) && this.additionalFields == additionalFields
    {
      name := GetString(json, "name", text);
      displayLabel := GetString(json, "label", text);
      shortDescription := GetString(json, "shortDescription", text);
      description := GetString(json, "description", text);
      accessPolicy := GetString(json, "accessPolicy", text);
      organizationType := GetString(json, "organizationType", text);
      organizationId := GetString(json, "organizationId", text);
      industry := GetString(json, "industry", text);
      department := GetString(json, "department", text);
      id := GetString(json, "id", text);
      itemStatus := GetString(json, "itemStatus", text);
      itemCreatedAt := GetString(json, "itemCreatedAt", text);
      context := GetString(json, "@context", text);
      fileFormat := GetString(json, "fileFormat", text);
      geoCoverage := GetString(json, "geoCoverage", text);
      yearRange := GetString(json, "yearRange", text);
      verifiedBy := GetString(json, "verifiedBy", text);
      uploadFrequency := GetString(json, "uploadFrequency", text);
      license := GetString(json, "license", text);
      uploadedBy := GetString(json, "uploadedBy", text);
      mediaURL := GetString(json, "mediaURL", text);
      this.types, this.tags, this.dataUploadStatus := types, tags, dataUploadStatus;
      this.additionalFields := additionalFields;
    }

    /** The known fields, under the keys they print to. */
    ghost function Fields(): Object
      reads this
    {
      map[
        "name" := StrJson(name), TYPE := ListJson(types), "label" := StrJson(displayLabel),
        "shortDescription" := StrJson(shortDescription), "description" := StrJson(description),
        TAGS := ListJson(tags), "accessPolicy" := StrJson(accessPolicy),
        "organizationType" := StrJson(organizationType), "organizationId" := StrJson(organizationId),
        "industry" := StrJson(industry), "department" := StrJson(department), "id" := StrJson(id),
        "itemStatus" := StrJson(itemStatus), "itemCreatedAt" := StrJson(itemCreatedAt),
        "@context" := StrJson(context), "fileFormat" := StrJson(fileFormat),
        "geoCoverage" := StrJson(geoCoverage), "yearRange" := StrJson(yearRange),
        "verifiedBy" := StrJson(verifiedBy), "uploadFrequency" := StrJson(uploadFrequency),
        "license" := StrJson(license), "uploadedBy" := StrJson(uploadedBy),
        DATA_UPLOAD_STATUS := BoolJson(dataUploadStatus), "mediaURL" := StrJson(mediaURL)]
    }

    static method FromJson(json: Object, text: Json -> string) returns (r: Result<DataBankItem, ItemError>)
      ensures r.Ok? <==> Typed(json)
      ensures r.Ok? ==> fresh(r.value)
      ensures r.Ok? ==> r.value.Fields() == DataBankFields(json, text)
      ensures r.Ok? ==> r.value.additionalFields == Extras(json, DATA_BANK_KEYS)
    {
      var types :- GetList(json, TYPE);
      var tags :- GetList(json, TAGS);
      var dataUploadStatus :- GetBool(json, DATA_UPLOAD_STATUS);
      var extras := CollectExtras(json, DATA_BANK_KEYS);
      var item := new DataBankItem(json, types, tags, dataUploadStatus, extras, text);
      return Ok(item);
    }

    method ToJson() returns (json: Object)
      ensures json == MergeIn(Fields(), additionalFields)
    {
      json := map[];
      json := json["name" := StrJson(name)];
      json := json[TYPE := ListJson(types)];
      json := json["label" := StrJson(displayLabel)];
      json := json["shortDescription" := StrJson(shortDescription)];
      json := json["description" := StrJson(description)];
      json := json[TAGS := ListJson(tags)];
      json := json["accessPolicy" := StrJson(accessPolicy)];
      json := json["organizationType" := StrJson(organizationType)];
      json := json["organizationId" := StrJson(organizationId)];
      json := json["industry" := StrJson(industry)];
      json := json["department" := StrJson(department)];
      json := json["id" := StrJson(id)];
      json := json["itemStatus" := StrJson(itemStatus)];
      json := json["itemCreatedAt" := StrJson(itemCreatedAt)];
      json := json["@context" := StrJson(context)];
      json := json["fileFormat" := StrJson(fileFormat)];
      json := json["geoCoverage" := StrJson(geoCoverage)];
      json := json["yearRange" := StrJson(yearRange)];
      json := json["verifiedBy" := StrJson(verifiedBy)];
      json := json["uploadFrequency" := StrJson(uploadFrequency)];
      json := json["license" := StrJson(license)];
      json := json["uploadedBy" := StrJson(uploadedBy)];
      json := json[DATA_UPLOAD_STATUS := BoolJson(dataUploadStatus)];
      json := json["mediaURL" := StrJson(mediaURL)];
      assert json == Fields();
      json := MergeIn(json, additionalFields);
    }
  }

  lemma DataBankEntry(asString: string -> Json, asIs: string -> Json, k: string)
    ensures k in DataBankEntries(asString, asIs) <==> k in DATA_BANK_KEYS
    ensures k in DATA_BANK_KEYS ==>
              DataBankEntries(asString, asIs)[k] == if k in NOT_STRINGS then asIs(k) else asString(k)
  {
  }

  lemma DataBankField(json: Object, text: Json -> string, k: string)
    ensures k in DataBankFields(json, text) <==> k in DATA_BANK_KEYS
    ensures k in DATA_BANK_KEYS ==> DataBankFields(json, text)[k] == Reread(json, k, text)
  {
    DataBankEntry(key => StrJson(GetString(json, key, text)), key => Get(json, key), k);
  }

  function DataBankPrint(json: Object, text: Json -> string): Object {
    MergeIn(DataBankFields(json, text), Extras(json, DATA_BANK_KEYS))
  }

  lemma DataBankKey(json: Object, text: Json -> string, k: string)
    ensures k in DataBankPrint(json, text) <==> k in json || k in DATA_BANK_KEYS
    ensures k in DATA_BANK_KEYS ==> DataBankPrint(json, text)[k] == Reread(json, k, text)
    ensures k in json && k !in DATA_BANK_KEYS ==> DataBankPrint(json, text)[k] == json[k]
  {
    DataBankField(json, text, k);
  }

  lemma DataBankPrintOf(json: Object, text: Json -> string)
    ensures PrintOf(json, DataBankPrint(json, text), DATA_BANK_KEYS, text)
  {
    forall k {
      DataBankKey(json, text, k);
    }
  }

  /** Parsing and printing keeps everything the object had, and doing it again changes nothing. */
  lemma DataBankConserves(json: Object, text: Json -> string)
    ensures Conserves(json, DataBankPrint(json, text), DATA_BANK_KEYS, text)
    ensures DataBankPrint(DataBankPrint(json, text), text) == DataBankPrint(json, text)
  {
    var once := DataBankPrint(json, text);
    var twice := DataBankPrint(once, text);
    var known := DATA_BANK_KEYS;
    DataBankPrintOf(json, text);
    DataBankPrintOf(once, text);
    PrintOfConserves(json, once, known, text);
    PrintOfTwice(json, once, twice, known, text);
  }
}
