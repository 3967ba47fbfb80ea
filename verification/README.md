# A verified model of the catalogue server

The Dafny files here model the search compiler, the item store, the item parsers, pagination, the catalogue cache
and a few smaller loops of the catalogue server, and prove what they promise. `dafny verify dfyconfig.toml` checks
everything.

## What is modelled

- **The query compiler** (`Fields`, `Elastic`, `QueryModels`, `Decorators`, `QueryDecoder`). A search request becomes
  a tree of query models and that tree is lowered to a target query. The target has a meaning over documents, with the
  engine's rules for bool queries: all `must` and `filter` clauses hold, no `must_not` clause holds, and `should`
  needs one hit by default only when neither `must` nor `filter` is there. `QueryMeaning` and `QueryTheorems` prove
  that the compiled query means the request, that the order of the decorators and of the clause map does not matter,
  that the two builders agree, and how hits change with criteria and values. `SearchCriteriaValidation` and
  `SearchTypes` link the checks and the request builder in front of it, and `SearchFaults` says why a search is
  refused.
- **One access policy** (`AccessPolicy`). The clause a search adds and the check get-item makes are the same policy.
- **The item store** (`ItemStore`, `ItemService`). Create, update, delete and get over a keyed store, with the
  validator in front and the hit counter that a search leaves for its continuation. `StoreSteps` is about single
  requests and about all serial runs, whose steps are what the handlers do (`StoreServing`); `StoreStatus` says
  exactly which requests keep items pending, upload statuses true to the media and names unique, in any store.
  `StoreFaults` says which requests are refused and why. `StoreRuns` proves that runs without look-alike types and
  renames keep all three, and `LookalikeRuns` and `RenameRuns` give runs that do not (`LookalikeItems` and
  `LookalikeSteps` hold their parts, `SampleRequests` the bodies). `StoreInterleavings` is about all interleavings of
  steps, `LinkIntegrity` about all sequences of deletes.
- **The items** (`AppsItem`, `MediaItems`, `ItemFactory`). Parsing and printing undo each other, with sections of any
  depth and with extra keys.
- **Pagination** (`Int32`, `Products`, `Binary64`, `Pagination`). The page count computed in binary64 is exact, and
  pages partition the hits.
- **The catalogue cache** (`CatalogueCache`), refreshed, filled lazily and evicted, against a remote catalogue that
  may change under it.
- **Smaller loops** (`SortOrders`, `SortMeaning`, `ValidationMessages`, `Deployer`): sort parameters, schema messages
  printed and split again, and recursive deployment.

Methods follow the loops and updates of the program and are proved against functions; the lemmas are about those
functions.

## What the model assumes

- The engine decides analysed matches, phrases, wildcards, query strings and multi-matches through uninterpreted
  functions, and every result holds for all of them. Where a result compares policy, owner or type with an analysed
  match, it requires that the engine treats that field as one case-folded token (`Elastic.CaseFolds`); the mapping in
  the repository analyses text (`configs/indices-mappings/cat_mappings.json:437`).
- Every queried field is indexed, `x.keyword` indexes the values of `x` as they are, arrays index each element, and a
  field name is one key of the document. Terms and wildcards on a field without the suffix are the engine's to decide;
  the upload status is the only such field, and `Elastic.ExactTerms` says that it is indexed as it is. Range queries
  compare the points the engine reads from the values of the field.
- Writes are visible at once, a handler runs to its next asynchronous call without interruption, and requests are
  served one after the other except in `StoreInterleavings` and `CatalogueCache`.
- A query model travels over the event bus between services, so the field list of a multi-match arrives as a JSON
  array; lowering a list is modelled in that form. A missing clause list and an empty one are the same.
- `getString` of a value that is not a string prints it; how is the parameter `text`. UUIDs and time stamps are
  parameters. Case folding and lower case are those of the ASCII letters.
- Whether null fields of a document reach the store is the parameter `dropNulls`; results hold for both.
- The invariants of `StoreRuns` are about runs whose accepted creates and updates list no type that reads, ignoring
  case, as another item type, and whose updates keep the name of the item they address; deletes and refused requests
  are unrestricted. Without these two restrictions they fail, as said below; what holds for all requests is in
  `StoreSteps` and `StoreStatus`.

## Where the code and its description differ

- `docs/openapi.yaml:146-147` says that `fuzzy` enables approximate matching and `autoComplete` search-as-you-type,
  but the decorator reads both flags from `fuzzy`
  (`src/main/java/org/cdpg/dx/database/elastic/model/TextSearchQueryDecorator.java:27-28`). Code and description agree
  exactly when the flags are both set or both not (`QueryTheorems.FlagsHonouredExactly`); with `autoComplete` alone
  they differ (`QueryTheorems.AutoCompleteAloneIsIgnored`). The model follows the code.
- A response filter has an effect exactly without a size (`QueryTheorems.SourceFilterExactly`), and the request
  builder always sets one, 100 by default
  (`src/main/java/org/cdpg/dx/common/request/PostSearchRequestBuilder.java:65-67`), so that whole documents come back
  (`QueryTheorems.SizedFilterIsDropped`).
- A term criterion means one of its values exactly when it has values (`QueryTheorems.PlainTermReading`); an empty
  list selects everything (`QueryTheorems.EmptyTermSelectsAll`).
- A search and get-item agree on an item exactly when the caller is anonymous or the policy is a known one
  (`AccessPolicy.AgreementNeedsKnownPolicy`, `AccessPolicy.PublicItemIsNotFound`).
- A rejected schema gives one message per error exactly when there is an error and no error text reads like two
  (`ValidationMessages.OneMessagePerErrorExactly`, `ValidationMessages.WrongNumberOfMessages`).
- Names stay unique over interleaved creates exactly when no two of them clash
  (`StoreInterleavings.NamesStayUniqueExactly`, `StoreInterleavings.AnyNameCanBeDuplicated`).
- The name lookup matches the type as analysed text, which ignores case,
  (`src/main/java/org/cdpg/dx/database/elastic/model/QueryDecoder.java:170-179`) while the controller routes by the
  exact type (`src/main/java/org/cdpg/dx/tgdex/item/controller/ItemController.java:112-119`), so an apps item whose
  types are `adex:Apps` and `ADEX:AIMODEL` is accepted and found for AI models. An update may copy its statuses
  (`LookalikeRuns.LookalikePublishes`), and a create may miss the AI model of its name
  (`LookalikeRuns.LookalikeDuplicates`). The exact conditions, in any store: an update keeps PENDING and a true upload
  status exactly when no document its name query selects reads back with another publish status
  (`StoreStatus.PutKeepsPendingExactly`) or as uploaded without media (`StoreStatus.UploadFollowsPutExactly`); a
  create is accepted as `StoreSteps.CreateAcceptedExactly` says and keeps names unique exactly when its kind and name
  are not taken (`StoreStatus.CreateKeepsNamesUniqueExactly`). Requests without look-alikes meet them (`StoreRuns`).
- Under a free name an update stores the publish and upload status its client sent
  (`StoreStatus.PutKeepsPendingExactly`, `StoreStatus.UploadFollowsPutExactly`), so that a client can leave PENDING by
  renaming (`RenameRuns.ClientLeavesPending`), and an update to the name of another item duplicates it
  (`StoreStatus.PutKeepsNamesUniqueExactly`).

## Model

| member | source | states |
|---|---|---|
| QueryTheorems.CompilationPreservesMeaning | src/main/java/org/cdpg/dx/database/elastic/model/QueryDecoder.java:17-78 | For every request that is not a parent lookup: it decodes exactly when it is acceptable, and then the query lowers without error and selects, on every document and for every engine, exactly the documents that meet the text clause, every criterion and the access rule and are not withheld (un-uploaded or pending data banks and AI models) |
| QueryTheorems.BuiltSearchMeaning | src/main/java/org/cdpg/dx/common/request/PostSearchRequestBuilder.java:99-122 | For every combination of parts the request builder puts into the search type: the request is never taken for a parent lookup, decodes exactly when each part it has is acceptable, and then selects exactly the documents that meet its text, its criteria and the access rule and are not withheld |
| QueryTheorems.ParentLookupMeaning | src/main/java/org/cdpg/dx/database/elastic/model/QueryDecoder.java:17-24 | The one search type, in any case, that is looked up by id: it needs an id, and its query then selects exactly the documents that have it |
| SearchFaults.SearchFault | src/main/java/org/cdpg/dx/database/elastic/model/QueryDecoder.java:26-57 | A refused search fails with the fault of its criteria, else of its text, else of its response filter; a missing part and a search type that names no part have faults of their own |
| SearchFaults.ListingFault | src/main/java/org/cdpg/dx/database/elastic/model/QueryDecoder.java:80-89 | A listing without criteria is a missing request; otherwise it fails with the fault of its criteria |
| SearchFaults.CriteriaFault | src/main/java/org/cdpg/dx/database/elastic/model/SearchCriteriaQueryDecorator.java:28-86 | An empty list of criteria fails as such; otherwise the first criterion that does not compile decides the fault |
| SearchFaults.CriterionFault | src/main/java/org/cdpg/dx/database/elastic/model/SearchCriteriaQueryDecorator.java:39-126 | The fault of a criterion that does not compile: a null value, a wrong number of values, or a type that is not one of the seven |
| QueryMeaning.BoolHolds | src/main/java/org/cdpg/dx/database/elastic/model/QueryModel.java:458-490 | A bool model that lowers selects a document exactly when all must and filter clauses hold, no must_not clause holds and enough should clauses hold, counted with the default: one when there is a should and neither must nor filter, else none |
| QueryMeaning.LowerAllPointwise | src/main/java/org/cdpg/dx/database/elastic/model/QueryModel.java:392-490 | Lowering a clause list succeeds exactly when every clause lowers, and then gives their target queries in order |
| QueryMeaning.CriterionMeaning | src/main/java/org/cdpg/dx/database/elastic/model/SearchCriteriaQueryDecorator.java:39-72 | A criterion compiles exactly when its values fit its type; the compiled clause lowers and means the criterion |
| QueryMeaning.CriterionModelsMeaning | src/main/java/org/cdpg/dx/database/elastic/model/SearchCriteriaQueryDecorator.java:28-86 | A list of criteria compiles exactly when each does, into as many clauses, all of which hold exactly when all criteria hold |
| QueryMeaning.CriterionModelsPointwise | src/main/java/org/cdpg/dx/database/elastic/model/SearchCriteriaQueryDecorator.java:28-86 | Clause i of the compiled list is what criterion i compiles to |
| QueryMeaning.TermLeavesMeaning | src/main/java/org/cdpg/dx/database/elastic/model/SearchCriteriaQueryDecorator.java:88-126 | One leaf per value; some leaf holds exactly when the document has one of the values in the sense its field calls for |
| QueryMeaning.TermLeafMeaning | src/main/java/org/cdpg/dx/database/elastic/model/SearchCriteriaQueryDecorator.java:93-121 | The leaf for one value lowers and means: analysed match for description and location, phrase for tags, case-insensitive wildcard for the file format, exact keyword otherwise, whether or not the field came with the keyword suffix |
| QueryTheorems.PlainTermReading | src/main/java/org/cdpg/dx/database/elastic/model/SearchCriteriaQueryDecorator.java:123-125 | A compiled term criterion agrees with asking for one of its values exactly when the list of values is not empty: the empty list compiles to an empty bool, which selects everything |
| QueryTheorems.EmptyTermSelectsAll | src/main/java/org/cdpg/dx/database/elastic/model/SearchCriteriaQueryDecorator.java:88-90 | A term criterion without values selects every document, though none has one of its values |
| QueryTheorems.AccessBlockMeaning | src/main/java/org/cdpg/dx/database/elastic/model/AccessPolicyQueryDecorator.java:25-65 | What the access clause selects: own items for my-assets; open, restricted and own private items for a signed-in caller; everything but private items without a caller |
| QueryTheorems.TextBlockMeaning | src/main/java/org/cdpg/dx/database/elastic/model/TextSearchQueryDecorator.java:22-73 | The text block fails exactly on a missing or blank query; otherwise it selects fuzzy or prefix matches when fuzzy is set, and query-string matches when it is not |
| QueryTheorems.FlagsHonouredExactly | src/main/java/org/cdpg/dx/database/elastic/model/TextSearchQueryDecorator.java:26-69 | For every accepted text request the compiled clause means, on all documents and engines, what the two flags are described to ask for exactly when fuzzy and autoComplete are both set or both not |
| QueryTheorems.AutoCompleteAloneIsIgnored | src/main/java/org/cdpg/dx/database/elastic/model/TextSearchQueryDecorator.java:27-28 | With autoComplete set by itself a document that completes the query is missed |
| QueryTheorems.ExclusionBlockMeaning | src/main/java/org/cdpg/dx/database/elastic/model/QueryDecoder.java:127-141 | The two exclusions withhold exactly the data banks and AI models whose publish status is PENDING or for which the engine finds the upload status false |
| QueryTheorems.WithheldPlainly | src/main/java/org/cdpg/dx/database/elastic/model/QueryDecoder.java:127-141 | Where the upload status is indexed as it is, those whose upload status is false or whose publish status is PENDING |
| QueryTheorems.ResponseBlockMeaning | src/main/java/org/cdpg/dx/database/elastic/model/ResponseFilterDecorator.java:24-44 | The response filter fails exactly when filtering is not allowed or names no field; its clause never changes which documents match |
| QueryTheorems.SourceFilterExactly | src/main/java/org/cdpg/dx/database/elastic/model/QueryDecoder.java:60-75 | An accepted response filter restricts the returned fields exactly when the request has no size |
| QueryTheorems.SizedFilterIsDropped | src/main/java/org/cdpg/dx/common/request/PostSearchRequestBuilder.java:65-67 | A text search that asks for some fields and no size decodes, with the size of 100 the request builder sets, without a source filter, for every text and every list of fields |
| QueryTheorems.InstanceBlockMeaning | src/main/java/org/cdpg/dx/database/elastic/model/InstanceFilterQueryDecorator.java:23-33 | The instance clause selects exactly the documents of the instance, and all of them when none is given |
| QueryTheorems.SearchClausesMeaning | src/main/java/org/cdpg/dx/database/elastic/model/QueryDecoder.java:26-57 | The accumulated clauses exist exactly for accepted requests and together mean what the request asks for |
| QueryTheorems.DecoratorsCommute | src/main/java/org/cdpg/dx/database/elastic/model/QueryDecoder.java:26-52 | Accumulating any permutation of the same clause blocks lowers alike and selects the same documents |
| QueryTheorems.AnyDecoratorOrder | src/main/java/org/cdpg/dx/database/elastic/model/QueryDecoder.java:26-57 | Running the decorators of an accepted search in any order still selects what the request asks for |
| QueryTheorems.BuildersAgree | src/main/java/org/cdpg/dx/database/elastic/model/QueryDecoder.java:80-125 | For an accepted criteria search without text, the filter listing selects exactly the hits of the search that also meet the instance clause; it carries one aggregation per requested filter, in order, on its keyword field |
| QueryTheorems.ListingMeaning | src/main/java/org/cdpg/dx/database/elastic/model/QueryDecoder.java:80-125 | The listing decodes exactly when its criteria are acceptable; its query lowers and means criteria, access rule, instance clause and exclusions |
| QueryTheorems.ListingCutsExactly | src/main/java/org/cdpg/dx/database/elastic/model/QueryDecoder.java:100-122 | With a size the listing and its aggregations are cut at it; without one, page and cut add up to 10000; without a page the listing has no limit |
| QueryTheorems.AddingCriterionNarrows | src/main/java/org/cdpg/dx/database/elastic/model/SearchCriteriaQueryDecorator.java:34-79 | Adding a criterion never adds hits |
| QueryTheorems.AddingValueWidens | src/main/java/org/cdpg/dx/database/elastic/model/SearchCriteriaQueryDecorator.java:88-126 | Adding a value to a term criterion that has one never removes hits |
| QueryTheorems.RangesPartition | src/main/java/org/cdpg/dx/database/elastic/model/SearchCriteriaQueryDecorator.java:47-67 | On a document with one value, exactly one of before(a), between(a, b) and after(b) holds when a is not later than b, for number and date bounds |
| QueryModels.CollectBounds | src/main/java/org/cdpg/dx/database/elastic/model/QueryModel.java:597-620 | The range builder ends with the same bounds in whatever order its conditions are visited |
| QueryDecoder.Decoder.GetQueryModel | src/main/java/org/cdpg/dx/database/elastic/model/QueryDecoder.java:17-78 | Decodes in place over the shared clause map; the result is the specified decoding, errors and window included |
| QueryDecoder.Decoder.ListMultipleItemTypesQuery | src/main/java/org/cdpg/dx/database/elastic/model/QueryDecoder.java:80-125 | Decodes a filter listing in place over the shared clause map, aggregations and limit included |
| QueryDecoder.Decoder.GetBoolQuery | src/main/java/org/cdpg/dx/database/elastic/model/QueryDecoder.java:194-205 | The bool model does not depend on the order in which the clause map is visited |
| QueryDecoder.Decoder.SourceFilter | src/main/java/org/cdpg/dx/database/elastic/model/QueryDecoder.java:71-75 | The last include-fields list among the filter clauses wins |
| QueryDecoder.Decoder.AggregationsFor | src/main/java/org/cdpg/dx/database/elastic/model/QueryDecoder.java:106-118 | One terms aggregation per filter, in order |
| Decorators.SearchCriteriaQueryDecorator.Add | src/main/java/org/cdpg/dx/database/elastic/model/SearchCriteriaQueryDecorator.java:28-86 | Appends one filter clause with one must clause per criterion; the first failing criterion stops it and leaves the map alone |
| Decorators.SearchCriteriaQueryDecorator.BuildTermQuery | src/main/java/org/cdpg/dx/database/elastic/model/SearchCriteriaQueryDecorator.java:88-126 | One should clause per value, in order; the first null value stops it |
| Decorators.FirstErrorStops | src/main/java/org/cdpg/dx/database/elastic/model/SearchCriteriaQueryDecorator.java:36-72 | The first criterion that fails decides the error, whatever follows it |
| Decorators.TextSearchQueryDecorator.Add | src/main/java/org/cdpg/dx/database/elastic/model/TextSearchQueryDecorator.java:22-73 | Appends one must clause to the shared map, or fails and leaves it alone |
| Decorators.AccessPolicyQueryDecorator.Add | src/main/java/org/cdpg/dx/database/elastic/model/AccessPolicyQueryDecorator.java:25-65 | Appends one must or must_not clause to the shared map |
| Decorators.ResponseFilterDecorator.Add | src/main/java/org/cdpg/dx/database/elastic/model/ResponseFilterDecorator.java:24-44 | Appends one filter clause to the shared map, or fails and leaves it alone |
| Decorators.InstanceFilterQueryDecorator.Add | src/main/java/org/cdpg/dx/database/elastic/model/InstanceFilterQueryDecorator.java:23-33 | Appends one filter clause to the shared map when an instance is given |
| SearchCriteriaValidation.HandleSearchCriteriaResult | src/main/java/org/cdpg/dx/tgdex/validator/util/SearchQueryValidatorHelper.java:99-186 | Accepts a list that the schemas let through exactly when every betweenRange has two numbers with the first not above the second, every betweenTemporal two dates that parse with the first strictly earlier, and every before and after one value; otherwise reports the fault of the first criterion that fails |
| SearchCriteriaValidation.CheckExactly | src/main/java/org/cdpg/dx/tgdex/validator/util/SearchQueryValidatorHelper.java:74-169 | A criterion that its schema lets through passes exactly when it is well formed in that sense |
| SearchCriteriaValidation.FaultExactly | src/main/java/org/cdpg/dx/tgdex/validator/util/SearchQueryValidatorHelper.java:115-169 | One that does not pass is turned down for its number of values or, if that is right, for their order |
| SearchCriteriaValidation.TypeFaults | src/main/java/org/cdpg/dx/tgdex/validator/util/SearchQueryValidatorHelper.java:105-176 | A criterion of a type that is not one of the seven is not supported, and one without a type gives no answer |
| SearchCriteriaValidation.ValidatedCriteriaCompile | src/main/java/org/cdpg/dx/database/elastic/model/SearchCriteriaQueryDecorator.java:28-86 | A non-empty list that the schemas and the loop accept compiles into one must clause per criterion, in order, and lowers |
| SearchTypes.BlocksReadBack | src/main/java/org/cdpg/dx/common/request/PostSearchRequestBuilder.java:99-122 | The decoder asks for each of its blocks exactly when the request builder put its part into the search type |
| AccessPolicy.AccessClauseIsOwnershipCheck | src/main/java/org/cdpg/dx/tgdex/item/service/ItemServiceImpl.java:229-248 | With a known policy and an owner, the access clause of a search outside my-assets and the ownership check of get-item agree, signed in or not |
| AccessPolicy.AgreementNeedsKnownPolicy | src/main/java/org/cdpg/dx/database/elastic/model/AccessPolicyQueryDecorator.java:31-63 | The two agree on a document exactly when the caller is anonymous or the policy is OPEN, RESTRICTED or PRIVATE in any case |
| AccessPolicy.PublicItemIsNotFound | src/main/java/org/cdpg/dx/tgdex/item/service/ItemServiceImpl.java:234-246 | An item with the policy PUBLIC passes the ownership check of a signed-in caller and is not found by a search of that caller |
| AccessPolicy.EveryHitMayBeRead | src/main/java/org/cdpg/dx/tgdex/item/service/ItemServiceImpl.java:229-247 | Every hit of any search or my-assets query passes the ownership check for its caller |
| AppsItem.RoundTrip | src/main/java/org/cdpg/dx/tgdex/item/model/AppsItem.java:278-317 | Printing and parsing an apps item, with subsections of any depth, gives the item back exactly when its additional properties avoid the known keys |
| AppsItem.HiddenNameIsLost | src/main/java/org/cdpg/dx/tgdex/item/model/AppsItem.java:12-28 | An item with an additional property called name is not read back |
| AppsItem.PrintNormalises | src/main/java/org/cdpg/dx/tgdex/item/model/AppsItem.java:51-87 | For any JSON that parses, one print normalises: parsing the print and printing again changes nothing |
| AppsItem.ParsesExactly | src/main/java/org/cdpg/dx/tgdex/item/model/AppsItem.java:51-87 | Parsing succeeds exactly when types and tags are lists and sections, if there are any, are lists of readable objects at every depth |
| AppsItem.ParseFaults | src/main/java/org/cdpg/dx/tgdex/item/model/AppsItem.java:51-87 | An apps item that does not parse fails for null types or tags, then for ones that are no lists, then for its sections |
| AppsItem.PartFaults | src/main/java/org/cdpg/dx/tgdex/item/model/AppsItem.java:89-125 | A section or subsection that is not read fails for its points, then for its subsections |
| AppsItem.FirstSectionFault | src/main/java/org/cdpg/dx/tgdex/item/model/AppsItem.java:51-106 | The first section that is not read decides the fault |
| AppsItem.FirstSubFault | src/main/java/org/cdpg/dx/tgdex/item/model/AppsItem.java:108-125 | The first subsection that is not read decides the fault |
| AppsItem.Keeps | src/main/java/org/cdpg/dx/tgdex/item/model/AppsItem.java:278-317 | Parsing and printing any JSON that parses keeps, key by key, its known texts, its lists and its unknown keys; of sections, at every depth, exactly title, content, points and subsections |
| AppsItem.SubRoundTrip | src/main/java/org/cdpg/dx/tgdex/item/model/AppsItem.java:108-125 | A subsection with subsections of any depth is parsed back from its print |
| AppsItem.SectionRoundTrip | src/main/java/org/cdpg/dx/tgdex/item/model/AppsItem.java:89-106 | A section is parsed back from its print |
| AppsItem.CollectAdditional | src/main/java/org/cdpg/dx/tgdex/item/model/AppsItem.java:77-83 | The key loop collects exactly the unknown keys, in whatever order it visits them |
| AppsItem.PutAdditional | src/main/java/org/cdpg/dx/tgdex/item/model/AppsItem.java:313-315 | Additional properties are put last and win over known ones, in whatever order |
| MediaItems.AiModelConserves | src/main/java/org/cdpg/dx/tgdex/item/model/AiModelItem.java:64-81 | Parse then print of an AI model keeps every key the JSON had, adds only known keys holding null, and a second round changes nothing |
| MediaItems.DataBankConserves | src/main/java/org/cdpg/dx/tgdex/item/model/DataBankItem.java:74-90 | Parse then print of a data bank keeps every key the JSON had, adds only known keys holding null, and a second round changes nothing |
| MediaItems.AiModelPrintOf | src/main/java/org/cdpg/dx/tgdex/item/model/AiModelItem.java:284-313 | The printed AI model key by key: known keys as read, all others untouched |
| MediaItems.DataBankPrintOf | src/main/java/org/cdpg/dx/tgdex/item/model/DataBankItem.java:309-340 | The printed data bank key by key: known keys as read, all others untouched |
| MediaItems.AiModelItem.FromJson | src/main/java/org/cdpg/dx/tgdex/item/model/AiModelItem.java:37-82 | Fails exactly on wrongly typed fields; otherwise sets the fields from the JSON and the extras to the unknown keys |
| MediaItems.AiModelItem.ToJson | src/main/java/org/cdpg/dx/tgdex/item/model/AiModelItem.java:284-313 | Prints the fields and merges the extras over them |
| MediaItems.DataBankItem.FromJson | src/main/java/org/cdpg/dx/tgdex/item/model/DataBankItem.java:43-91 | Fails exactly on wrongly typed fields; otherwise sets the fields from the JSON and the extras to the unknown keys |
| MediaItems.DataBankItem.ToJson | src/main/java/org/cdpg/dx/tgdex/item/model/DataBankItem.java:309-340 | Prints the fields and merges the extras over them |
| MediaItems.CollectExtras | src/main/java/org/cdpg/dx/tgdex/item/model/AiModelItem.java:73-79 | The key loop collects exactly the unknown keys, in whatever order it visits them |
| ItemFactory.FromChooses | src/main/java/org/cdpg/dx/tgdex/item/util/ItemFactory.java:36-46 | A type list that names exactly one item type is read with the class of that type |
| ItemFactory.ParseExactly | src/main/java/org/cdpg/dx/tgdex/item/util/ItemFactory.java:19-34 | A body is parsed with the class of its first type, and parses exactly when that is an item type whose class can read it |
| ItemFactory.ParseFaults | src/main/java/org/cdpg/dx/tgdex/item/util/ItemFactory.java:19-34 | A body that does not parse has no type list, an empty one, a first type that is no item type, or a field its class cannot read, each with its own fault |
| ItemFactory.FromExactly | src/main/java/org/cdpg/dx/tgdex/item/util/ItemFactory.java:36-46 | A stored document is read as an AI model if it lists that type, else as an apps item, else as a data bank, and reads back exactly when that class can read it |
| ItemFactory.FromFaults | src/main/java/org/cdpg/dx/tgdex/item/util/ItemFactory.java:36-46 | A document that is not read back has no type list or lists no item type |
| ItemFactory.ReadShowsStatus | src/main/java/org/cdpg/dx/tgdex/item/util/ItemFactory.java:36-46 | Whatever class a document is read with, the item shows its id, name, types, media URL and statuses |
| ItemFactory.PrintKeeps | src/main/java/org/cdpg/dx/tgdex/item/util/ItemFactory.java:19-46 | Every item keeps id, name and types through parse and print; an AI model or data bank also its media URL, upload status and publish status |
| ItemStore.ElasticStore.GetSingleDocument | src/main/java/org/cdpg/dx/database/elastic/service/ElasticsearchServiceImpl.java:356-382 | Returns any one matching document without its summary, or none when there is none, and leaves the number of hits in the shared counter |
| ItemStore.ElasticStore.Perform | src/main/java/org/cdpg/dx/database/elastic/service/ElasticsearchServiceImpl.java:384-468 | Indexes by the id inside the document, merges a partial update, deletes by key; a failing write changes nothing |
| ItemService.Service.CreateItem | src/main/java/org/cdpg/dx/tgdex/item/service/ItemServiceImpl.java:44-71 | Creates exactly when the id is there, not blank and unused; the store then holds the item under its id |
| ItemService.Service.UpdateItem | src/main/java/org/cdpg/dx/tgdex/item/service/ItemServiceImpl.java:165-198 | Merges the item into the stored document exactly when a document with its id and first type exists |
| ItemService.Service.DeleteItem | src/main/java/org/cdpg/dx/tgdex/item/service/ItemServiceImpl.java:113-162 | Deletes the one document that is or points to the item; none and several are refused |
| ItemService.Service.GetItem | src/main/java/org/cdpg/dx/tgdex/item/service/ItemServiceImpl.java:74-110 | Answers with nothing when no document has the id, else with one that has it, if the ownership check lets the caller through |
| ItemService.Service.ItemWithTheNameExists | src/main/java/org/cdpg/dx/tgdex/item/service/ItemServiceImpl.java:201-227 | Answers Missing, an item read from one of the documents of that type and name, or a failure |
| ItemService.Service.SetStatus | src/main/java/org/cdpg/dx/tgdex/item/util/ItemExistenceValidator.java:125-138 | Sets upload and publish status in the request body, from the request alone on POST and with the previous item on PUT |
| ItemService.Service.Validate | src/main/java/org/cdpg/dx/tgdex/item/util/ItemExistenceValidator.java:73-193 | Validates one request of any kind in place, given what the name lookup answered |
| ItemService.Controller.HandleCreateOrUpdate | src/main/java/org/cdpg/dx/tgdex/item/controller/ItemController.java:105-188 | Routes by type, validates, parses and writes; the store changes only when every step went through |
| ItemService.DeleteMeaning | src/main/java/org/cdpg/dx/tgdex/item/service/ItemServiceImpl.java:121-134 | The delete query, five should clauses without a must, selects exactly the item and everything that points to it |
| ItemService.UpdateMeaning | src/main/java/org/cdpg/dx/tgdex/item/service/ItemServiceImpl.java:175-181 | The update query selects exactly the documents with the id that list the type |
| ItemService.NameMeaning | src/main/java/org/cdpg/dx/database/elastic/model/QueryDecoder.java:170-179 | The name query selects the documents of that type and exactly that name |
| ItemService.ItemByIdMeaning | src/main/java/org/cdpg/dx/database/elastic/model/QueryDecoder.java:180-192 | The item query selects exactly the documents with the id |
| ItemService.MediaPresentExactly | src/main/java/org/cdpg/dx/tgdex/item/util/ItemExistenceValidator.java:125-126 | Media counts as present exactly when the URL is there with a text that is not blank, as absent exactly when the key is missing or the text blank, and a null URL gives no answer |
| StoreSteps.ItemFound | src/main/java/org/cdpg/dx/tgdex/item/service/ItemServiceImpl.java:74-91 | In a store whose keys are the ids, the item query finds the document under the id and no other |
| StoreSteps.GetItemExactly | src/main/java/org/cdpg/dx/tgdex/item/service/ItemServiceImpl.java:74-110 | In a store whose keys are the ids, get-item answers with nothing exactly when the id is not stored, refuses exactly a private item of which the caller is not the owner, gives a signed-in caller no answer for a private item without an owner, and returns every other item, one without a policy too |
| StoreSteps.PreparedExactly | src/main/java/org/cdpg/dx/tgdex/item/util/ItemExistenceValidator.java:195-218 | A request is prepared exactly when it has a name and an id of five groups or none, which then is the stamped one; it keeps all fields but the three the server sets |
| StoreSteps.UuidExactly | src/main/java/org/cdpg/dx/tgdex/item/util/ItemExistenceValidator.java:208-221 | Proper ids are exactly five groups of 8, 4, 4, 4 and 12 letters and digits joined by dashes |
| StoreFaults.CreateCheckFaults | src/main/java/org/cdpg/dx/tgdex/item/service/ItemServiceImpl.java:44-71 | A create is turned down exactly for a missing or blank id and for a stored one, each with its own fault |
| StoreFaults.UpdateCheckFaults | src/main/java/org/cdpg/dx/tgdex/item/service/ItemServiceImpl.java:165-198 | An update is turned down for a blank first type, then for a missing or blank id, then when no document with the id lists the type, and for nothing else |
| StoreFaults.UntypedUpdate | src/main/java/org/cdpg/dx/tgdex/item/service/ItemServiceImpl.java:165-173 | An update without a first type is turned down for it |
| StoreFaults.DeleteCheckFaults | src/main/java/org/cdpg/dx/tgdex/item/service/ItemServiceImpl.java:113-162 | A delete is turned down exactly for a blank id and when it concerns no document or several; otherwise it removes the one it concerns |
| StoreFaults.CommitFaults | src/main/java/org/cdpg/dx/database/elastic/service/ElasticsearchServiceImpl.java:384-468 | The store turns down exactly an index without an id and an update or delete of an absent or empty key |
| StoreFaults.JudgedExactly | src/main/java/org/cdpg/dx/tgdex/item/util/ItemExistenceValidator.java:73-193 | Validation turns down a failed lookup, then a create of a taken name, then a null media URL where the status depends on it, and otherwise changes the two status fields at most |
| StoreFaults.UnparsableExactly | src/main/java/org/cdpg/dx/tgdex/item/util/ItemFactory.java:19-34 | A request that validation lets through is unparsable exactly when its first type is no item type whose class can read it |
| StoreFaults.RoutedExactly | src/main/java/org/cdpg/dx/tgdex/item/controller/ItemController.java:105-153 | A body is routed to a kind exactly when its types hold the type of the kind and no other of the nine catalogue types |
| StoreSteps.AnswersExactly | src/main/java/org/cdpg/dx/tgdex/item/service/ItemServiceImpl.java:201-227 | The name lookup answers Missing exactly when its query selects nothing, and otherwise may read back any one of the selected documents and answers nothing else |
| StoreSteps.ReadBackExactly | src/main/java/org/cdpg/dx/tgdex/item/service/ItemServiceImpl.java:201-227 | A selected document is found exactly when the class it is read with can read it; otherwise the lookup fails |
| StoreSteps.CreateAcceptedExactly | src/main/java/org/cdpg/dx/tgdex/item/util/ItemExistenceValidator.java:73-142 | In any keyed store a create whose request parses may be accepted exactly when its id is unused and not blank and either its name query selects nothing or, for an AI model or data bank, a selected document reads back as an item that does not mention the type |
| StoreSteps.PutAcceptedExactly | src/main/java/org/cdpg/dx/tgdex/item/service/ItemServiceImpl.java:165-198 | In any keyed store an update whose request parses is accepted exactly when its id is not blank and is the key of a document that lists its type |
| StoreSteps.RunStaysKeyed | src/main/java/org/cdpg/dx/database/elastic/service/ElasticsearchServiceImpl.java:384-438 | In every run of any requests each document sits under its own id |
| StoreSteps.CreateNeverOverwrites | src/main/java/org/cdpg/dx/tgdex/item/service/ItemServiceImpl.java:44-71 | In every run of any requests a create leaves all stored documents in place |
| StoreStatus.StatusUnderAnswer | src/main/java/org/cdpg/dx/tgdex/item/util/ItemExistenceValidator.java:96-193 | The publish and upload status an accepted update of an AI model or data bank leaves, under each answer of the lookup, a free name included |
| StoreStatus.CreatedStatus | src/main/java/org/cdpg/dx/tgdex/item/util/ItemExistenceValidator.java:104-111 | A created AI model or data bank is PENDING, and its upload status tells whether it carries media |
| StoreStatus.UpdateAtPath | src/main/java/org/cdpg/dx/tgdex/item/service/ItemServiceImpl.java:165-198 | An accepted update, path by path through nested objects: the stored value stays where the item sent is silent, and the value sent wins elsewhere |
| StoreStatus.PutKeepsPendingExactly | src/main/java/org/cdpg/dx/tgdex/item/util/ItemExistenceValidator.java:96-193 | In any keyed store an accepted update of a pending AI model or data bank leaves it PENDING under every answer of the lookup exactly when no document its name query selects reads back with another publish status or, when none is selected, its own body brings no other |
| StoreStatus.UploadFollowsPutExactly | src/main/java/org/cdpg/dx/tgdex/item/util/ItemExistenceValidator.java:125-138 | In any keyed store an accepted update leaves an upload status that tells whether it carried media, under every answer, exactly when it carried media or no selected document reads back as uploaded without media; when none is selected, exactly when its own status says so |
| StoreStatus.CreateKeepsNamesUniqueExactly | src/main/java/org/cdpg/dx/tgdex/item/util/ItemExistenceValidator.java:96-142 | An accepted create keeps the names unique exactly when no document holds an item of its kind and name |
| StoreStatus.PutKeepsNamesUniqueExactly | src/main/java/org/cdpg/dx/tgdex/item/service/ItemServiceImpl.java:165-198 | An accepted update, of the same name or another, keeps the names unique exactly when no other key holds an item of its kind and name |
| LookalikeRuns.LookalikePublishes | src/main/java/org/cdpg/dx/tgdex/item/util/ItemExistenceValidator.java:112-138 | From an empty store: a create of an AI model, a create of an apps item of the same name that also lists ADEX:AIMODEL and brings its own statuses, and an update of the model that keeps its name leave the model PUBLISHED and marked as uploaded, though its last write carried no media |
| LookalikeRuns.LookalikeDuplicates | src/main/java/org/cdpg/dx/tgdex/item/util/ItemExistenceValidator.java:112-127 | With that apps item stored, a second AI model of the same name is created |
| RenameRuns.ClientLeavesPending | src/main/java/org/cdpg/dx/tgdex/item/util/ItemExistenceValidator.java:102-111 | From an empty store, a create and one update under a free name, with a publish status in its body, take an AI model out of PENDING |
| StoreRuns.LookupInGoodStore | src/main/java/org/cdpg/dx/tgdex/item/service/ItemServiceImpl.java:201-227 | In a good store the lookup answers Missing exactly when the name is free; an item it finds has the kind asked for and shows the stored status |
| StoreRuns.CreateAcceptedInGoodStore | src/main/java/org/cdpg/dx/tgdex/item/util/ItemExistenceValidator.java:73-142 | In a good store a create whose request parses is accepted exactly when its name is free among the items of its kind and its id is unused and not blank |
| StoreRuns.PutAcceptedInGoodStore | src/main/java/org/cdpg/dx/tgdex/item/service/ItemServiceImpl.java:165-198 | In a good store an update whose request parses is accepted exactly when its id is not blank and is stored with its kind |
| StoreRuns.StepKeepsInv | src/main/java/org/cdpg/dx/tgdex/item/controller/ItemController.java:145-188 | Every create and name-keeping update whose types hold no look-alike, every refused request and every delete, with any answer the lookup allows, keeps the store invariant |
| StoreRuns.UploadStatusFollowsLastWrite | src/main/java/org/cdpg/dx/tgdex/item/util/ItemExistenceValidator.java:96-193 | Over every run of such requests the upload status of an AI model or data bank is true exactly when the last write to it carried a media URL that is not blank, whether or not null fields reach the store; a true status implies a stored URL that is not blank |
| StoreRuns.RunsStayPendingAndUnique | src/main/java/org/cdpg/dx/tgdex/item/util/ItemExistenceValidator.java:96-193 | Over every run of such requests no AI model or data bank leaves PENDING, keys are ids, and no two items share kind and name |
| StoreRuns.RoutedKind | src/main/java/org/cdpg/dx/tgdex/item/controller/ItemController.java:105-129 | A body without look-alikes is routed to the kind its first type names |
| StoreServing.Serve | src/main/java/org/cdpg/dx/tgdex/item/controller/ItemController.java:145-188 | Handling any create, update or delete takes exactly one step of the runs; a body routed to no kind is refused and leaves the store alone |
| StoreInterleavings.InterleavingsStayKeyed | src/main/java/org/cdpg/dx/database/elastic/service/ElasticsearchServiceImpl.java:384-411 | In every interleaving of validation, check and write steps, equal ones included, each stored document sits under its own id |
| StoreInterleavings.NamesStayUniqueExactly | src/main/java/org/cdpg/dx/tgdex/item/service/ItemServiceImpl.java:44-71 | Over all interleavings of a set of creates, with any deletes between their steps, names stay unique exactly when no two of the creates make items of one kind and name with different ids |
| StoreInterleavings.InterleavedCreatesDuplicate | src/main/java/org/cdpg/dx/tgdex/item/service/ItemServiceImpl.java:55-67 | Two creates of one kind and name with different ids, both checked before either is written, are both stored |
| StoreInterleavings.AnyNameCanBeDuplicated | src/main/java/org/cdpg/dx/tgdex/item/util/ItemExistenceValidator.java:73-94 | Under any name, the creates of two apps items with different ids can interleave so that both are stored |
| LinkIntegrity.DeleteRemovesOne | src/main/java/org/cdpg/dx/tgdex/item/service/ItemServiceImpl.java:113-162 | After a successful delete of x exactly one document is gone, all others are unchanged, and none left has the id x or points to x |
| LinkIntegrity.DeleteRemovesItselfExactly | src/main/java/org/cdpg/dx/tgdex/item/service/ItemServiceImpl.java:136-148 | The removed document is x itself exactly when x was stored; otherwise it is the one document that pointed to x |
| LinkIntegrity.DeleteKeepsLinks | src/main/java/org/cdpg/dx/tgdex/item/service/ItemServiceImpl.java:136-157 | If all links resolved, the removed document is x and all links still resolve |
| LinkIntegrity.DeletesKeepLinks | src/main/java/org/cdpg/dx/tgdex/item/service/ItemServiceImpl.java:113-162 | Any sequence of deletes keeps all links resolved and removes only documents whose ids were given |
| LinkIntegrity.DeleteAcceptedExactly | src/main/java/org/cdpg/dx/tgdex/item/service/ItemServiceImpl.java:137-145 | The delete of a stored x is accepted exactly when nothing else points to it |
| LinkIntegrity.DanglingLinkDeletesReferrer | src/main/java/org/cdpg/dx/tgdex/item/service/ItemServiceImpl.java:145-148 | With a dangling link, deleting the missing x removes the only document that points to x |
| Pagination.FloatingPageCountIsExact | src/main/java/org/cdpg/dx/tgdex/search/util/ResponseModel.java:54-60 | For fewer than 2^31 hits and a positive int size, the ceiling of the binary64 quotient, however it is rounded to nearest, is the integer ceiling |
| Pagination.QuotientRounds | src/main/java/org/cdpg/dx/tgdex/search/util/ResponseModel.java:54-60 | Every such quotient has a nearest binary64 value |
| Pagination.ResponseModel.constructor | src/main/java/org/cdpg/dx/tgdex/search/util/ResponseModel.java:19-60 | Sets the results in order and the page counts: exact page number, hasNext exactly when a hit lies beyond the window, and the value Java gives for size zero |
| Pagination.PagesPartitionHits | src/main/java/org/cdpg/dx/database/elastic/service/ElasticsearchServiceImpl.java:64-69 | The windows of pages 1 to the last, put together, are the whole hit list in order |
| Pagination.HitIsOnOnePage | src/main/java/org/cdpg/dx/database/elastic/model/QueryDecoder.java:62-67 | Every hit lies in the window of exactly one page, which is one of the counted pages |
| Pagination.NextPageExactly | src/main/java/org/cdpg/dx/tgdex/search/util/ResponseModel.java:56-57 | hasNext tells exactly whether a hit lies beyond the window, and the last page is not empty |
| Pagination.OffsetExactly | src/main/java/org/cdpg/dx/database/elastic/model/QueryDecoder.java:65-65 | The int offset equals the product exactly when the product fits an int |
| Pagination.OffsetDoesNotWrap | src/main/java/org/cdpg/dx/database/elastic/model/QueryDecoder.java:62-67 | Within offset + size <= 10000 the offset is exact and the end of the window fits an int |
| Pagination.OffsetWraps | src/main/java/org/cdpg/dx/database/elastic/model/QueryDecoder.java:65-65 | A page whose offset leaves the int range gets a negative one |
| Pagination.DecodedSearchFetchesPage | src/main/java/org/cdpg/dx/database/elastic/service/ElasticsearchServiceImpl.java:64-69 | Within offset + size <= 10000 a decoded search fetches exactly the page it asks for, the first when it names none |
| Pagination.UnsizedSearchFetchesHundred | src/main/java/org/cdpg/dx/database/elastic/service/ElasticsearchServiceImpl.java:144-154 | A search without a size fetches the first hundred hits, whatever page it names |
| CatalogueCache.ReturnedWasRemote | src/main/java/org/cdpg/dx/catalogue/service/CatalogueServiceImpl.java:37-56 | Under every schedule of refreshes, lookups, evictions and remote changes, equal answers delivered several times included, a returned document was the value of the remote catalogue for that id at an earlier moment, and carries that id |
| CatalogueCache.CacheIsTransparent | src/main/java/org/cdpg/dx/catalogue/service/CatalogueServiceImpl.java:79-135 | Against a fixed catalogue a successful fetch returns what a direct lookup would, and every entry sits under the id of its document |
| CatalogueCache.RefreshedExactly | src/main/java/org/cdpg/dx/catalogue/service/CatalogueServiceImpl.java:84-98 | After an answered refresh an id is cached exactly when a document put has it, the last of them being its entry, whatever was cached before; documents are put up to the first without an id, and without an answer nothing changes |
| CatalogueCache.RefreshShowsItsCatalogue | src/main/java/org/cdpg/dx/catalogue/service/CatalogueServiceImpl.java:84-98 | In every run, right after a refresh is delivered the cache holds exactly the ids listed, all with the values that one catalogue of the past had, the one that served it |
| CatalogueCache.FullRefreshIsTheCatalogue | src/main/java/org/cdpg/dx/catalogue/service/CatalogueServiceImpl.java:84-98 | A refresh that lists all of its catalogue leaves exactly that catalogue |
| CatalogueCache.LookedUpExactly | src/main/java/org/cdpg/dx/catalogue/service/CatalogueServiceImpl.java:113-127 | A lookup leaves every other id alone and puts the last document of its answer under the id asked for |
| CatalogueCache.NextKeepsInv | src/main/java/org/cdpg/dx/catalogue/service/CatalogueServiceImpl.java:82-126 | Every handler, in any order, keeps all entries and all answers under way genuine |
| CatalogueCache.CatalogueService.OnRefreshAnswer | src/main/java/org/cdpg/dx/catalogue/service/CatalogueServiceImpl.java:84-98 | Without an answer the cache stays; with one it is emptied and filled under the ids of the documents |
| CatalogueCache.CatalogueService.OnLookupAnswer | src/main/java/org/cdpg/dx/catalogue/service/CatalogueServiceImpl.java:113-127 | The answer is cached under the id asked for, and the cache is read again for the reply |
| ValidationMessages.SplitPrinted | src/main/java/org/cdpg/dx/tgdex/validator/Validator.java:186-206 | Printing any non-empty list of separable messages and splitting it back gives the same messages, trimmed and without backslashes, in order |
| ValidationMessages.OneMessagePerErrorExactly | src/main/java/org/cdpg/dx/tgdex/validator/Validator.java:184-205 | The split never gives fewer messages than errors, and exactly one each precisely when there is an error and no error text holds a comma, optional whitespace and the word Field |
| ValidationMessages.SeparatorInText | src/main/java/org/cdpg/dx/tgdex/validator/Validator.java:178-205 | Any error whose text holds a comma and then the word Field gives more than one message |
| ValidationMessages.WrongNumberOfMessages | src/main/java/org/cdpg/dx/tgdex/validator/Validator.java:178-205 | No error gives one message, and one error that quotes the value OPEN,Field gives more than one |
| ValidationMessages.UnescapeThenStrip | src/main/java/org/cdpg/dx/tgdex/validator/Validator.java:206-206 | The two replacements amount to dropping every backslash |
| ValidationMessages.ParseValidationMessages | src/main/java/org/cdpg/dx/tgdex/validator/Validator.java:199-294 | One message per piece of the split, in order |
| ValidationMessages.BlamedFieldsExactly | src/main/java/org/cdpg/dx/tgdex/validator/Validator.java:156-170 | The blamed fields are exactly those of the errors, each once |
| ValidationMessages.BlamedFieldExactly | src/main/java/org/cdpg/dx/tgdex/validator/Validator.java:156-170 | An entry blames the field its pointer names, else the first missing property found in a message about missing ones, else an unknown field |
| ValidationMessages.ErrorsExactly | src/main/java/org/cdpg/dx/tgdex/validator/Validator.java:140-142 | The report loop keeps exactly the entries of level error, in any case, in order |
| ValidationMessages.CollectErrors | src/main/java/org/cdpg/dx/tgdex/validator/Validator.java:135-176 | The report loop builds the messages of the errors in order and the blamed fields in order of first blame |
| ValidationMessages.Validate | src/main/java/org/cdpg/dx/tgdex/validator/Validator.java:133-197 | Accepts exactly on success; otherwise rejects with the blamed fields and the messages read back from the printed errors |
| SortOrders.PrintThenParse | src/main/java/org/cdpg/dx/common/request/PostSearchRequestBuilder.java:169-209 | Printing one to three orders whose columns are free of colon and semicolon, then parsing, gives the orders with normalised columns |
| SortOrders.ParsedIsFixedPoint | src/main/java/org/cdpg/dx/common/request/PostSearchRequestBuilder.java:169-209 | What parsing any parameter gives is a fixed point: printed and parsed again it stays the same |
| SortMeaning.SplitExactly | src/main/java/org/cdpg/dx/common/request/PostSearchRequestBuilder.java:180-189 | Splitting gives exactly the pieces that joined again are the string, but for separators at its end |
| SortMeaning.ParseItemExactly | src/main/java/org/cdpg/dx/common/request/PostSearchRequestBuilder.java:187-203 | An item that is a column, a colon and a direction, followed by colons at most, gives the trimmed column with its keyword suffix and the direction in any case; a wrong direction and any other form have their own faults |
| SortMeaning.ColumnExactly | src/main/java/org/cdpg/dx/common/request/PostSearchRequestBuilder.java:194-198 | A column gets the keyword suffix exactly when it has none and is not the creation time in any case |
| SortMeaning.TrimExactly | src/main/java/org/cdpg/dx/common/request/PostSearchRequestBuilder.java:194-195 | Trimming takes the characters up to the space off both ends and nothing else |
| SortMeaning.ParseExactly | src/main/java/org/cdpg/dx/common/request/PostSearchRequestBuilder.java:169-209 | An empty parameter asks for the latest first; any other has at most three fields, parsed in order, of which the first bad one decides the fault |
| SortOrders.ExtractSortOrders | src/main/java/org/cdpg/dx/common/request/PostSearchRequestBuilder.java:169-209 | The loop returns the parsed orders, or the fault of the first bad item |
| Deployer.Deployment.RecursiveDeploy | src/main/java/org/cdpg/dx/deploy/Deployer.java:113-160 | Deploys an in-order prefix of the request, removes exactly it from the list, stops at the first failure, and leaves the configuration of exactly the attempts made |
| Deployer.DeployableIsLongestPrefix | src/main/java/org/cdpg/dx/deploy/Deployer.java:113-160 | The deployed prefix is the longest of which every attempt succeeds |
| Deployer.AttemptExactly | src/main/java/org/cdpg/dx/deploy/Deployer.java:119-160 | An attempt succeeds exactly when the first module of the name, with the common settings over its own path by path, has the settings a deployment needs and starts; it leaves every other module alone |
| Deployer.StartsExactly | src/main/java/org/cdpg/dx/deploy/Deployer.java:71-104 | By index, a module launches exactly when with the common settings over its own it has a name and those settings and starts |
| Json.MergedAt | src/main/java/org/cdpg/dx/deploy/Deployer.java:133-134 | A merge at any path, however deep: the first value stays where the second object is silent, objects merge, and any other value of the second wins |
| Deployer.Deployment.RecursiveDeployAll | src/main/java/org/cdpg/dx/deploy/Deployer.java:71-104 | Deploys the configured modules from an index on; afterwards exactly the attempted ones hold the common settings |
| Deployer.DeployedFromExactly | src/main/java/org/cdpg/dx/deploy/Deployer.java:71-104 | Deployment by index runs through the modules that launch, in configured order, and stops at the first that does not |
| Deployer.MergeIsIdempotent | src/main/java/org/cdpg/dx/deploy/Deployer.java:133-134 | Merging the common settings a second time changes nothing |

## Left out

- Query model nodes are values, not shared objects: aliasing of clause lists between nodes is not captured; the shared clause map, items and request bodies are objects updated in place.
- Apps items are parsed and printed by functions: the setters of one fresh object are not modelled as updates in place.
- QueryModel branches that the decoder never builds (geo, script score, terms, query string) and the fuzziness, operator and boost parameters, which do not change which documents match here.
- Text matching itself: fuzzy, prefix, phrase, wildcard and query-string matching stay uninterpreted.
- The JSON form of a query model and its converter, and aggregation results: only the requested aggregations are modelled.
- Sorting of search results, and the sort map built from parsed orders.
- The 10000-hit cap of the engine and the cast of its hit count to int.
- Negative page sizes, which the engine rejects before any page count is made.
- Interleaved handlers that read each other's hit count: uniqueness, create-never-overwrites and the status results are about serial requests, and the interleaved steps use the number of hits at the moment of the check.
- The fields the controller takes from the token and its context value, role checks, auditing, HTTP status mapping, routing and response writing.
- The provider-owner cache, which has the same shape as the catalogue cache; the timer and the expiry policy, which are evictions here.
- In the catalogue cache the two reads of one cache hit happen at one moment; an eviction between them is not modelled.
- ValidationMessages.ParseValidationMessages: what a message is rephrased to is the parameter `describe`; splitting, order and number of the messages are modelled.
- The regular expression that finds the first missing property, schema evaluation itself, and date parsing are parameters.
- The item validator service that repeats the validator, and the profanity check.
- Worker pool settings and deployment options other than the ones a deployment needs to start; metrics and shutdown.
