/** The parser and printer of an apps item, with its nested sections. */
module AppsItem {
  import opened Json

  datatype ItemError = NullValue | WrongType

  datatype SubSection = SubSection(
    subtitle: Option<string>, content: Option<string>, points: Option<seq<Json>>, subsections: SubSections)

  /** A nullable list of subsections. */
  datatype SubSections = Absent | Listed(list: seq<SubSection>)

  datatype Section = Section(
    title: Option<string>, content: Option<string>, points: Option<seq<Json>>, subsections: SubSections)

  datatype Apps = Apps(
    name: Option<string>, types: seq<Json>, displayLabel: Option<string>, shortDescription: Option<string>,
    description: Option<string>, tags: seq<Json>, accessPolicy: Option<string>, organizationType: Option<string>,
    organizationId: Option<string>, industry: Option<string>, department: Option<string>, id: Option<string>,
    itemStatus: Option<string>, itemCreatedAt: Option<string>, context: Option<string>,
    sections: Option<seq<Section>>, additional: Object)

  const KNOWN_FIELDS: set<string> := {
    "name", "type", "label", "shortDescription", "description", "tags", "accessPolicy", "organizationType",
    "organizationId", "industry", "department", "id", "itemStatus", "itemCreatedAt", "@context", "sections"}

  // ---------------------------------------------------------------- printing

  function PrintSub(ss: SubSection): Object
    decreases ss, 1
  {
    var o := map["subtitle" := StrJson(ss.subtitle), "content" := StrJson(ss.content), "points" := ListJson(ss.points)];
    if ss.subsections.Listed? then o["subsections" := JArr(PrintSubs(ss.subsections.list))] else o
  }

  function PrintSubs(list: seq<SubSection>): (r: seq<Json>)
    ensures |r| == |list|
    decreases list, 0
  {
    if list == [] then [] else [JObj(PrintSub(list[0]))] + PrintSubs(list[1..])
  }

  function PrintSection(s: Section): Object {
    var o := map["title" := StrJson(s.title), "content" := StrJson(s.content), "points" := ListJson(s.points)];
    if s.subsections.Listed? then o["subsections" := JArr(PrintSubs(s.subsections.list))] else o
  }

  function PrintSections(list: seq<Section>): seq<Json> {
    if list == [] then [] else [JObj(PrintSection(list[0]))] + PrintSections(list[1..])
  }

  function PrintScalars(a: Apps): Object {
    map["name" := StrJson(a.name), "type" := JArr(a.types), "label" := StrJson(a.displayLabel),
        "shortDescription" := StrJson(a.shortDescription), "description" := StrJson(a.description),
        "tags" := JArr(a.tags), "accessPolicy" := StrJson(a.accessPolicy),
        "organizationType" := StrJson(a.organizationType), "organizationId" := StrJson(a.organizationId),
        "industry" := StrJson(a.industry), "department" := StrJson(a.department), "id" := StrJson(a.id),
        "itemStatus" := StrJson(a.itemStatus), "itemCreatedAt" := StrJson(a.itemCreatedAt),
        "@context" := StrJson(a.context)]
  }

  function PrintKnown(a: Apps): Object {
    if a.sections.Some? then PrintScalars(a)["sections" := JArr(PrintSections(a.sections.value))] else PrintScalars(a)
  }

  function ToJson(a: Apps): Object {
    PrintKnown(a) + a.additional
  }

  // ---------------------------------------------------------------- parsing

  function ParsePoints(o: Object): Result<Option<seq<Json>>, ItemError> {
    match Get(o, "points")
    case JNull => Ok(None)
    case JArr(elems) => Ok(Some(elems))
    case _ => Err(WrongType)
  }

  function ParseSub(o: Object, text: Json -> string): Result<SubSection, ItemError>
    decreases JObj(o), 1
  {
    var points :- ParsePoints(o);
    if "subsections" !in o then
      Ok(SubSection(GetString(o, "subtitle", text), GetString(o, "content", text), points, Absent))
    else if o["subsections"].JNull? then Err(NullValue)
    else if !o["subsections"].JArr? then Err(WrongType)
    else
      var subs :- ParseSubs(o["subsections"].elems, text);
      Ok(SubSection(GetString(o, "subtitle", text), GetString(o, "content", text), points, Listed(subs)))
  }

  function ParseSubs(list: seq<Json>, text: Json -> string): Result<seq<SubSection>, ItemError>
    decreases list, 0
  {
    if list == [] then Ok([])
    else if !list[0].JObj? then Err(WrongType)
    else
      var head :- ParseSub(list[0].fields, text);
      var tail :- ParseSubs(list[1..], text);
      Ok([head] + tail)
  }

  function ParseSection(o: Object, text: Json -> string): Result<Section, ItemError> {
    var points :- ParsePoints(o);
    if "subsections" !in o then
      Ok(Section(GetString(o, "title", text), GetString(o, "content", text), points, Absent))
    else if o["subsections"].JNull? then Err(NullValue)
    else if !o["subsections"].JArr? then Err(WrongType)
    else
      var subs :- ParseSubs(o["subsections"].elems, text);
      Ok(Section(GetString(o, "title", text), GetString(o, "content", text), points, Listed(subs)))
  }

  function ParseSections(list: seq<Json>, text: Json -> string): Result<seq<Section>, ItemError> {
    if list == [] then Ok([])
    else if !list[0].JObj? then Err(WrongType)
    else
      var head :- ParseSection(list[0].fields, text);
      var tail :- ParseSections(list[1..], text);
      Ok([head] + tail)
  }

  function ParseAllSections(json: Object, text: Json -> string): Result<Option<seq<Section>>, ItemError> {
    if "sections" !in json then Ok(None)
    else if json["sections"].JNull? then Err(NullValue)
    else if !json["sections"].JArr? then Err(WrongType)
    else
      var sections :- ParseSections(json["sections"].elems, text);
      Ok(Some(sections))
  }

  function Additional(json: Object): Object {
    map k | k in json && k !in KNOWN_FIELDS :: json[k]
  }

  /** The setters of the parser. */
  function ReadFields(read: string -> Option<string>, types: seq<Json>, tags: seq<Json>, sections: Option<seq<Section>>,
                      additional: Object): Apps {
    Apps(read("name"), types, read("label"), read("shortDescription"), read("description"), tags, read("accessPolicy"),
         read("organizationType"), read("organizationId"), read("industry"), read("department"), read("id"),
         read("itemStatus"), read("itemCreatedAt"), read("@context"), sections, additional)
  }

  /** An apps item needs its type and tags lists. */
  function FromJson(json: Object, text: Json -> string): Result<Apps, ItemError> {
    if Get(json, "type").JNull? || Get(json, "tags").JNull? then Err(NullValue)
    else if !Get(json, "type").JArr? || !Get(json, "tags").JArr? then Err(WrongType)
    else
      var sections :- ParseAllSections(json, text);
      var types, tags := Get(json, "type").elems, Get(json, "tags").elems;
      Ok(ReadFields(key => GetString(json, key, text), types, tags, sections, Additional(json)))
  }

  /** The key loop of the parser: whatever the order of the keys, it collects the unknown ones. */
  method CollectAdditional(json: Object) returns (additional: Object)
    ensures additional == Additional(json)
  {
    additional := map[];
    var pending := json.Keys;
    while pending != {}
      invariant pending <= json.Keys
      invariant additional == map k | k in json && k !in KNOWN_FIELDS && k !in pending :: json[k]
      decreases pending
    {
      var key :| key in pending;
      if key !in KNOWN_FIELDS {
        additional := additional[key := json[key]];
      }
      pending := pending - {key};
    }
  }

  /** The key loop of the printer: the additional properties are put last and win over known fields. */
  method PutAdditional(known: Object, additional: Object) returns (json: Object)
    ensures json == known + additional
  {
    json := known;
    var pending := additional.Keys;
    while pending != {}
      invariant pending <= additional.Keys
      invariant json == known + map k | k in additional && k !in pending :: additional[k]
      decreases pending
    {
      var key :| key in pending;
      json := json[key := additional[key]];
      pending := pending - {key};
    }
  }

  // ---------------------------------------------------------------- round trips

  lemma {:induction false} SubRoundTrip(ss: SubSection, text: Json -> string)
    ensures ParseSub(PrintSub(ss), text) == Ok(ss)
    decreases ss, 1
  {
    if ss.subsections.Listed? {
      SubsRoundTrip(ss.subsections.list, text);
    }
  }

  lemma {:induction false} SubsRoundTrip(list: seq<SubSection>, text: Json -> string)
    ensures ParseSubs(PrintSubs(list), text) == Ok(list)
    decreases list, 0
  {
    if list == [] {
    } else {
      SubRoundTrip(list[0], text);
      SubsRoundTrip(list[1..], text);
      assert PrintSubs(list)[1..] == PrintSubs(list[1..]);
      assert [list[0]] + list[1..] == list;
    }
  }

  lemma SectionRoundTrip(s: Section, text: Json -> string)
    ensures ParseSection(PrintSection(s), text) == Ok(s)
  {
    if s.subsections.Listed? {
      SubsRoundTrip(s.subsections.list, text);
    }
  }

  lemma {:induction false} SectionsRoundTrip(list: seq<Section>, text: Json -> string)
    ensures ParseSections(PrintSections(list), text) == Ok(list)
  {
    if list == [] {
    } else {
      SectionRoundTrip(list[0], text);
      SectionsRoundTrip(list[1..], text);
      assert PrintSections(list)[1..] == PrintSections(list[1..]);
      assert [list[0]] + list[1..] == list;
    }
  }

  lemma KnownKeys(a: Apps, k: string)
    ensures k in PrintKnown(a) ==> k in KNOWN_FIELDS
    ensures k in KNOWN_FIELDS && k != "sections" ==> k in PrintKnown(a)
  {
  }

  /** The object shows the known fields of the item. */
  ghost predicate Shows(o: Object, a: Apps) {
    ShowsNames(o, a) && ShowsOrganisation(o, a) && ShowsStatus(o, a) && ShowsLists(o, a)
  }

  ghost predicate ShowsNames(o: Object, a: Apps) {
    && Get(o, "name") == StrJson(a.name) && Get(o, "label") == StrJson(a.displayLabel)
    && Get(o, "shortDescription") == StrJson(a.shortDescription) && Get(o, "description") == StrJson(a.description)
  }

  ghost predicate ShowsOrganisation(o: Object, a: Apps) {
    && Get(o, "accessPolicy") == StrJson(a.accessPolicy) && Get(o, "organizationType") == StrJson(a.organizationType)
    && Get(o, "organizationId") == StrJson(a.organizationId) && Get(o, "industry") == StrJson(a.industry)
    && Get(o, "department") == StrJson(a.department)
  }

  ghost predicate ShowsStatus(o: Object, a: Apps) {
    && Get(o, "id") == StrJson(a.id) && Get(o, "itemStatus") == StrJson(a.itemStatus)
    && Get(o, "itemCreatedAt") == StrJson(a.itemCreatedAt) && Get(o, "@context") == StrJson(a.context)
  }

  ghost predicate ShowsLists(o: Object, a: Apps) {
    && Get(o, "type") == JArr(a.types) && Get(o, "tags") == JArr(a.tags)
    && ("sections" in o <==> a.sections.Some?)
    && (a.sections.Some? ==> o["sections"] == JArr(PrintSections(a.sections.value)))
  }

  lemma ScalarsNames(a: Apps)
    ensures ShowsNames(PrintScalars(a), a)
  {
  }

  lemma PrintsNames(a: Apps)
    ensures ShowsNames(PrintKnown(a), a)
  {
    ScalarsNames(a);
  }

  lemma ScalarsOrganisation(a: Apps)
    ensures ShowsOrganisation(PrintScalars(a), a)
  {
  }

  lemma PrintsOrganisation(a: Apps)
    ensures ShowsOrganisation(PrintKnown(a), a)
  {
    ScalarsOrganisation(a);
  }

  lemma ScalarsStatus(a: Apps)
    ensures ShowsStatus(PrintScalars(a), a)
  {
  }

  lemma PrintsStatus(a: Apps)
    ensures ShowsStatus(PrintKnown(a), a)
  {
    ScalarsStatus(a);
  }

  lemma PrintsLists(a: Apps)
    ensures ShowsLists(PrintKnown(a), a)
  {
  }

  lemma UnknownKeysDoNotShow(o: Object, extra: Object, a: Apps)
    requires Shows(o, a) && extra.Keys !! KNOWN_FIELDS
    ensures Shows(o + extra, a)
  {
    forall k | k in KNOWN_FIELDS
      ensures Get(o + extra, k) == Get(o, k) && (k in o + extra <==> k in o)
    {
      assert k !in extra;
    }
  }

  lemma ReadsNames(o: Object, a: Apps, text: Json -> string)
    requires ShowsNames(o, a)
    ensures GetString(o, "name", text) == a.name && GetString(o, "label", text) == a.displayLabel
    ensures GetString(o, "shortDescription", text) == a.shortDescription
    ensures GetString(o, "description", text) == a.description
  {
  }

  lemma ReadsOrganisation(o: Object, a: Apps, text: Json -> string)
    requires ShowsOrganisation(o, a)
    ensures GetString(o, "accessPolicy", text) == a.accessPolicy
    ensures GetString(o, "organizationType", text) == a.organizationType
    ensures GetString(o, "organizationId", text) == a.organizationId
    ensures GetString(o, "industry", text) == a.industry && GetString(o, "department", text) == a.department
  {
  }

  lemma ReadsStatus(o: Object, a: Apps, text: Json -> string)
    requires ShowsStatus(o, a)
    ensures GetString(o, "id", text) == a.id && GetString(o, "itemStatus", text) == a.itemStatus
    ensures GetString(o, "itemCreatedAt", text) == a.itemCreatedAt && GetString(o, "@context", text) == a.context
  {
  }

  lemma ReadsAsShown(o: Object, a: Apps, additional: Object, text: Json -> string)
    requires ShowsNames(o, a) && ShowsOrganisation(o, a) && ShowsStatus(o, a)
    ensures ReadFields(key => GetString(o, key, text), a.types, a.tags, a.sections, additional)
         == a.(additional := additional)
  {
    ReadsNames(o, a, text);
    ReadsOrganisation(o, a, text);
    ReadsStatus(o, a, text);
  }

  lemma ReadsSections(o: Object, a: Apps, text: Json -> string)
    requires ShowsLists(o, a)
    ensures ParseAllSections(o, text) == Ok(a.sections)
  {
    if a.sections.Some? {
      SectionsRoundTrip(a.sections.value, text);
    }
  }

  lemma ParsesAsShown(o: Object, a: Apps, text: Json -> string)
    requires Shows(o, a)
    ensures FromJson(o, text) == Ok(a.(additional := Additional(o)))
  {
    ReadsSections(o, a, text);
    ReadsAsShown(o, a, Additional(o), text);
  }

  /** A section or subsection that the parser can read: its points are a list, if there are any, and its
      subsections, if there are any, are a list of objects it can read, to any depth. */
  predicate Readable(part: Json)
    decreases part
  {
    && part.JObj?
    && (Get(part.fields, "points").JNull? || Get(part.fields, "points").JArr?)
    && ("subsections" in part.fields ==>
          && part.fields["subsections"].JArr?
          && forall s | s in part.fields["subsections"].elems :: Readable(s))
  }

  lemma {:induction false} SubReadable(o: Object, text: Json -> string)
    ensures ParseSub(o, text).Ok? <==> Readable(JObj(o))
    decreases JObj(o), 1
  {
    if "subsections" in o && o["subsections"].JArr? {
      SubsReadable(o["subsections"].elems, text);
    }
  }

  lemma {:induction false} SubsReadable(list: seq<Json>, text: Json -> string)
    ensures ParseSubs(list, text).Ok? <==> forall s | s in list :: Readable(s)
    decreases list, 0
  {
    if list == [] {
    } else {
      assert list[0].JObj? || !Readable(list[0]);
      assert forall s :: s in list <==> s == list[0] || s in list[1..];
      if list[0].JObj? {
        SubReadable(list[0].fields, text);
      }
      SubsReadable(list[1..], text);
    }
  }

  lemma SectionReadable(o: Object, text: Json -> string)
    ensures ParseSection(o, text).Ok? <==> Readable(JObj(o))
  {
    if "subsections" in o && o["subsections"].JArr? {
      SubsReadable(o["subsections"].elems, text);
    }
  }

  lemma {:induction false} SectionsReadable(list: seq<Json>, text: Json -> string)
    ensures ParseSections(list, text).Ok? <==> forall s | s in list :: Readable(s)
  {
    if list == [] {
    } else {
      assert list[0].JObj? || !Readable(list[0]);
      assert forall s :: s in list <==> s == list[0] || s in list[1..];
      if list[0].JObj? {
        SectionReadable(list[0].fields, text);
      }
      SectionsReadable(list[1..], text);
    }
  }

  /** An apps item parses exactly when its types and tags are lists and its sections, if there are any, are a
      list of readable sections. */
  lemma ParsesExactly(json: Object, text: Json -> string)
    ensures FromJson(json, text).Ok? <==>
            && Get(json, "type").JArr? && Get(json, "tags").JArr?
            && ("sections" in json ==>
                  json["sections"].JArr? && forall s | s in json["sections"].elems :: Readable(s))
  {
    if "sections" in json && json["sections"].JArr? {
      SectionsReadable(json["sections"].elems, text);
    }
  }

  /** Why a section or subsection is not read: for points that are no list, then for null subsections, then for
      subsections that are no list, then for the first one that is not read. */
  lemma PartFaults(o: Object, text: Json -> string)
    ensures !Get(o, "points").JNull? && !Get(o, "points").JArr? ==>
              ParseSub(o, text) == Err(WrongType) && ParseSection(o, text) == Err(WrongType)
    ensures (Get(o, "points").JNull? || Get(o, "points").JArr?) && "subsections" in o && !o["subsections"].JArr? ==>
              var fault := if o["subsections"].JNull? then NullValue else WrongType;
              ParseSub(o, text) == Err(fault) && ParseSection(o, text) == Err(fault)
    ensures (Get(o, "points").JNull? || Get(o, "points").JArr?) && "subsections" in o && o["subsections"].JArr? ==>
              var subs := ParseSubs(o["subsections"].elems, text);
              subs.Err? ==> ParseSub(o, text) == Err(subs.error) && ParseSection(o, text) == Err(subs.error)
  {
  }

  lemma {:induction false} FirstSubFault(list: seq<Json>, text: Json -> string, i: nat)
    requires i < |list| && !Readable(list[i]) && forall j :: 0 <= j < i ==> Readable(list[j])
    ensures list[i].JObj? ==> ParseSub(list[i].fields, text).Err?
    ensures ParseSubs(list, text) == Err(if list[i].JObj? then ParseSub(list[i].fields, text).error else WrongType)
    decreases |list|
  {
    if list[i].JObj? {
      SubReadable(list[i].fields, text);
    }
    if i > 0 {
      assert Readable(list[0]);
      SubReadable(list[0].fields, text);
      FirstSubFault(list[1..], text, i - 1);
    }
  }

  lemma {:induction false} FirstSectionFault(list: seq<Json>, text: Json -> string, i: nat)
    requires i < |list| && !Readable(list[i]) && forall j :: 0 <= j < i ==> Readable(list[j])
    ensures list[i].JObj? ==> ParseSection(list[i].fields, text).Err?
    ensures ParseSections(list, text)
         == Err(if list[i].JObj? then ParseSection(list[i].fields, text).error else WrongType)
    decreases |list|
  {
    if list[i].JObj? {
      SectionReadable(list[i].fields, text);
    }
    if i > 0 {
      assert Readable(list[0]);
      SectionReadable(list[0].fields, text);
      FirstSectionFault(list[1..], text, i - 1);
    }
  }

  /** Why an apps item does not parse: for a missing or null type or tags, then for one that is no list, then for
      null sections, then for sections that are no list, then for the first section that is not read. */
  lemma ParseFaults(json: Object, text: Json -> string)
    ensures Get(json, "type").JNull? || Get(json, "tags").JNull? ==> FromJson(json, text) == Err(NullValue)
    ensures var types, tags := Get(json, "type"), Get(json, "tags");
            !types.JNull? && !tags.JNull? && (!types.JArr? || !tags.JArr?) ==> FromJson(json, text) == Err(WrongType)
    ensures Get(json, "type").JArr? && Get(json, "tags").JArr? && "sections" in json ==>
              match json["sections"]
              case JNull => FromJson(json, text) == Err(NullValue)
              case JArr(elems) =>
                ParseSections(elems, text).Err? ==> FromJson(json, text) == Err(ParseSections(elems, text).error)
              case _ => FromJson(json, text) == Err(WrongType)
  {
  }

  lemma AdditionalOfPrinted(a: Apps)
    requires a.additional.Keys !! KNOWN_FIELDS
    ensures Additional(ToJson(a)) == a.additional
  {
    forall k
      ensures k in Additional(ToJson(a)) <==> k in a.additional
    {
      KnownKeys(a, k);
    }
  }

  lemma PrintedShows(a: Apps)
    requires a.additional.Keys !! KNOWN_FIELDS
    ensures Shows(ToJson(a), a)
  {
    PrintsNames(a);
    PrintsOrganisation(a);
    PrintsStatus(a);
    PrintsLists(a);
    UnknownKeysDoNotShow(PrintKnown(a), a.additional, a);
  }

  lemma ParsedFields(json: Object, text: Json -> string)
    requires FromJson(json, text).Ok?
    ensures var a := FromJson(json, text).value;
            && a.name == GetString(json, "name", text) && a.id == GetString(json, "id", text)
            && Get(json, "type") == JArr(a.types) && a.additional.Keys !! KNOWN_FIELDS
  {
  }

  /** What the type, tags and sections of an object are decides whether it parses. */
  lemma ListsSuffice(o: Object, a: Apps, text: Json -> string)
    requires ShowsLists(o, a)
    ensures FromJson(o, text).Ok?
  {
    ReadsSections(o, a, text);
  }

  /** A key the class does not know passes through parsing and printing. */
  lemma UnknownKeyKept(json: Object, text: Json -> string, k: string)
    requires FromJson(json, text).Ok? && k !in KNOWN_FIELDS
    ensures var printed := ToJson(FromJson(json, text).value);
            (k in printed <==> k in json) && Get(printed, k) == Get(json, k)
  {
    KnownKeys(FromJson(json, text).value, k);
  }

  lemma PrintedLists(json: Object, text: Json -> string)
    requires FromJson(json, text).Ok?
    ensures ShowsLists(ToJson(FromJson(json, text).value), FromJson(json, text).value)
  {
    ParsedFields(json, text);
    PrintedShows(FromJson(json, text).value);
  }

  lemma DisjointRoundTrip(a: Apps, text: Json -> string)
    requires a.additional.Keys !! KNOWN_FIELDS
    ensures FromJson(ToJson(a), text) == Ok(a)
  {
    PrintedShows(a);
    ParsesAsShown(ToJson(a), a, text);
    AdditionalOfPrinted(a);
  }

  /** Printing then parsing gives the item back, however deep its subsections, exactly when no
      additional property hides under a known key. */
  lemma RoundTrip(a: Apps, text: Json -> string)
    ensures FromJson(ToJson(a), text) == Ok(a) <==> a.additional.Keys !! KNOWN_FIELDS
  {
    if a.additional.Keys !! KNOWN_FIELDS {
      DisjointRoundTrip(a, text);
    } else {
      var k :| k in a.additional && k in KNOWN_FIELDS;
      assert k !in Additional(ToJson(a));
    }
  }

  // ---------------------------------------------------------------- what a parse and print keeps

  /** A section or subsection as it is printed after it was read: its title, content and points, and its
      subsections if it has a list of them, in order and to any depth; nothing else. */
  function Kept(part: Object, titleKey: string, text: Json -> string): Object
    decreases JObj(part), 1
  {
    var o := map[titleKey := StrJson(GetString(part, titleKey, text)),
                 "content" := StrJson(GetString(part, "content", text)), "points" := Get(part, "points")];
    if "subsections" in part && part["subsections"].JArr?
    then o["subsections" := JArr(AllKept(part["subsections"].elems, "subtitle", text))]
    else o
  }

  function AllKept(list: seq<Json>, titleKey: string, text: Json -> string): seq<Json>
    decreases list, 0
  {
    if list == [] then []
    else [if list[0].JObj? then JObj(Kept(list[0].fields, titleKey, text)) else JNull]
         + AllKept(list[1..], titleKey, text)
  }

  lemma {:induction false} SubKeeps(o: Object, text: Json -> string)
    requires ParseSub(o, text).Ok?
    ensures PrintSub(ParseSub(o, text).value) == Kept(o, "subtitle", text)
    decreases JObj(o), 1
  {
    if "subsections" in o {
      SubsKeep(o["subsections"].elems, text);
    }
  }

  lemma {:induction false} SubsKeep(list: seq<Json>, text: Json -> string)
    requires ParseSubs(list, text).Ok?
    ensures PrintSubs(ParseSubs(list, text).value) == AllKept(list, "subtitle", text)
    decreases list, 0
  {
    if list == [] {
    } else {
      SubKeeps(list[0].fields, text);
      SubsKeep(list[1..], text);
      var subs := ParseSubs(list, text).value;
      assert subs[0] == ParseSub(list[0].fields, text).value && subs[1..] == ParseSubs(list[1..], text).value;
    }
  }

  lemma SectionKeeps(o: Object, text: Json -> string)
    requires ParseSection(o, text).Ok?
    ensures PrintSection(ParseSection(o, text).value) == Kept(o, "title", text)
  {
    if "subsections" in o {
      SubsKeep(o["subsections"].elems, text);
    }
  }

  lemma {:induction false} SectionsKeep(list: seq<Json>, text: Json -> string)
    requires ParseSections(list, text).Ok?
    ensures PrintSections(ParseSections(list, text).value) == AllKept(list, "title", text)
  {
    if list == [] {
    } else {
      SectionKeeps(list[0].fields, text);
      SectionsKeep(list[1..], text);
      var sections := ParseSections(list, text).value;
      assert sections[0] == ParseSection(list[0].fields, text).value;
      assert sections[1..] == ParseSections(list[1..], text).value;
    }
  }

  const NAMES: set<string> := {"name", "label", "shortDescription", "description"}
  const ORGANISATION: set<string> := {"accessPolicy", "organizationType", "organizationId", "industry", "department"}
  const STATUS: set<string> := {"id", "itemStatus", "itemCreatedAt", "@context"}

  lemma ParsedNames(json: Object, text: Json -> string)
    requires FromJson(json, text).Ok?
    ensures var a := FromJson(json, text).value;
            && a.name == GetString(json, "name", text) && a.displayLabel == GetString(json, "label", text)
            && a.shortDescription == GetString(json, "shortDescription", text)
            && a.description == GetString(json, "description", text)
  {
  }

  lemma ParsedOrganisation(json: Object, text: Json -> string)
    requires FromJson(json, text).Ok?
    ensures var a := FromJson(json, text).value;
            && a.accessPolicy == GetString(json, "accessPolicy", text)
            && a.organizationType == GetString(json, "organizationType", text)
            && a.organizationId == GetString(json, "organizationId", text)
            && a.industry == GetString(json, "industry", text) && a.department == GetString(json, "department", text)
  {
  }

  lemma ParsedStatus(json: Object, text: Json -> string)
    requires FromJson(json, text).Ok?
    ensures var a := FromJson(json, text).value;
            && a.id == GetString(json, "id", text) && a.itemStatus == GetString(json, "itemStatus", text)
            && a.itemCreatedAt == GetString(json, "itemCreatedAt", text)
            && a.context == GetString(json, "@context", text)
  {
  }

  lemma NamesKept(json: Object, text: Json -> string, o: Object, a: Apps)
    requires FromJson(json, text) == Ok(a) && ShowsNames(o, a)
    ensures forall k | k in NAMES :: Get(o, k) == StrJson(GetString(json, k, text))
  {
    ParsedNames(json, text);
  }

  lemma OrganisationKept(json: Object, text: Json -> string, o: Object, a: Apps)
    requires FromJson(json, text) == Ok(a) && ShowsOrganisation(o, a)
    ensures forall k | k in ORGANISATION :: Get(o, k) == StrJson(GetString(json, k, text))
  {
    ParsedOrganisation(json, text);
  }

  lemma StatusKept(json: Object, text: Json -> string, o: Object, a: Apps)
    requires FromJson(json, text) == Ok(a) && ShowsStatus(o, a)
    ensures forall k | k in STATUS :: Get(o, k) == StrJson(GetString(json, k, text))
  {
    ParsedStatus(json, text);
  }

  lemma ScalarKept(json: Object, text: Json -> string, k: string)
    requires FromJson(json, text).Ok? && k in NAMES + ORGANISATION + STATUS
    ensures Get(ToJson(FromJson(json, text).value), k) == StrJson(GetString(json, k, text))
  {
    var a := FromJson(json, text).value;
    ParsedFields(json, text);
    PrintedShows(a);
    NamesKept(json, text, ToJson(a), a);
    OrganisationKept(json, text, ToJson(a), a);
    StatusKept(json, text, ToJson(a), a);
  }

  /** Parsing and printing an apps item keeps, key by key, its known texts, its types and tags, its sections as
      they are printed and every key its class does not know. */
  lemma Keeps(json: Object, text: Json -> string, k: string)
    requires FromJson(json, text).Ok?
    ensures var printed := ToJson(FromJson(json, text).value);
            && (k in NAMES + ORGANISATION + STATUS ==> Get(printed, k) == StrJson(GetString(json, k, text)))
            && (k == "type" || k == "tags" || k !in KNOWN_FIELDS ==> Get(printed, k) == Get(json, k))
            && ("sections" in printed <==> "sections" in json)
            && ("sections" in json ==> printed["sections"] == JArr(AllKept(json["sections"].elems, "title", text)))
  {
    PrintedLists(json, text);
    if k in NAMES + ORGANISATION + STATUS {
      ScalarKept(json, text, k);
    }
    if k !in KNOWN_FIELDS {
      UnknownKeyKept(json, text, k);
    }
    if "sections" in json {
      SectionsKeep(json["sections"].elems, text);
    }
  }

  /** An additional property under a known key is not read back as one. */
  lemma HiddenNameIsLost(text: Json -> string)
    ensures var a := Apps(None, [], None, None, None, [], None, None, None, None, None, None, None, None, None, None,
                          map["name" := JStr("x")]);
            FromJson(ToJson(a), text) != Ok(a)
  {
    var a := Apps(None, [], None, None, None, [], None, None, None, None, None, None, None, None, None, None,
                  map["name" := JStr("x")]);
    assert "name" in a.additional.Keys && "name" in KNOWN_FIELDS;
    RoundTrip(a, text);
  }

  /** For any JSON that parses, one print normalises it: parsing and printing again changes nothing. */
  lemma PrintNormalises(json: Object, text: Json -> string)
    requires FromJson(json, text).Ok?
    ensures var printed := ToJson(FromJson(json, text).value);
            FromJson(printed, text) == FromJson(json, text) && ToJson(FromJson(printed, text).value) == printed
  {
    DisjointRoundTrip(FromJson(json, text).value, text);
  }
}
