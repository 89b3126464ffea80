# herbs2rest, modelled in Dafny

herbs2rest turns the metadata of herbs use cases into REST routing. For each use
case it derives an HTTP method, a resource name, a path template and a request
parameter plan. It then registers express routes whose handlers project the
incoming request (`body`, `query`, `params`) onto the use case's request schema.

This project models the deterministic core of that system and proves what it
promises:

- **Convention builders** (`src/builders/`):
  - HTTP method parsing and the CRUD-to-method table (`HttpMethod`);
  - the plural and camel-case resource name (`Resource`);
  - the path template (`Path`);
  - the parameter planner, its casting handler and `toJSON` (`Parameter`);
  - the `Endpoint` object with `for`, `use`, initialisation and validation (`Endpoints`);
  - the per-version `EndpointBuilder` with `for`, `ignore` and `build` (`EndpointBuilders`).
- **The older metadata populator** `src/populateMetadata.js` (`PopulateMetadata`).
- **Request casting**:
  - both generations of `castRequest` (`LegacyCastRequest`, `CastRequest`);
  - both generations of `req2request` (`LegacyReq2Request`, `Req2Request`).
- **Route-table construction**:
  - `generateControllers` (`GenerateControllers`);
  - both generations of `generateRoutes` (`GenerateRoutes`, `LegacyGenerateRoutes`).
  - They share the slot table and the router in `Routing`, and the controller-list entries in `ControllerEntries`.

Shared vocabulary:

- `Js` models JavaScript values and plain objects. An object is an insertion-ordered list of key/value pairs, and enumeration follows that order (path segments, route order, the handler's loops, the schema walks). JavaScript enumerates integer-like keys first, in ascending order; the model does not (see "Left out"). `Put` keeps an existing key in place and appends a new one.
- `Meta` models the entity and use-case metadata: schemas as ordered entries, type descriptors, and use cases.
- `Wrappers` holds `Option` and `Result`.

The code is modelled in the form the source has it:

- Pure transforms are functions with lemmas about them.
- Code that updates state is a class or a method:
  - the express router is a `Router` object whose routes a method appends to;
  - the endpoint is an `Endpoint` class whose `use` assigns fields;
  - the builder's registry is a `Herbarium` object;
  - the loops of `handler`, `req2request`, `generateControllers` and both `generateRoutes` are `while` loops with invariants.
- Each such method is proved against a specification function. The properties are proved about that function.

Thrown errors are the `Failure` or `error` side of a result. Each carries the text the source throws or the TypeError the runtime raises.

## Model

| member | source | states |
|---|---|---|
| HttpMethod.Parse | src/builders/httpMethod.js:28-33 | nothing for a non-string (both directions); a result is the upper-cased argument; the error is `Invalid HTTP method: ` followed by the argument as given |
| HttpMethod.ParseYieldsToken | src/builders/httpMethod.js:4-14 | every method `parse` returns is one of the nine tokens; `parse` fails exactly on the strings whose upper case is not a token |
| HttpMethod.ParseCaseInsensitive | src/builders/httpMethod.js:30-31 | two spellings with the same upper case are accepted or rejected alike, and accepted ones parse to the same token |
| HttpMethod.ParseAcceptsAnyCase | src/builders/httpMethod.js:30-31 | a token written in any mixture of cases is accepted and comes back in upper case |
| HttpMethod.ParseIdempotent | src/builders/httpMethod.js:28-33 | an accepted argument yields a method, and parsing that method again gives the same result |
| HttpMethod.TokensAreUpperCase | src/builders/httpMethod.js:4-14 | every recognised token is its own upper case |
| HttpMethod.ParseRejectsInvalid | test/endpoints.test.js:643 | `INVALID` is rejected with `Invalid HTTP method: INVALID`; `get` parses to `GET` |
| HttpMethod.MethodsNonEmpty | src/builders/httpMethod.js:4-14 | every token is at least three characters long, so a resolved method is truthy |
| HttpMethod.FromOperation | src/builders/httpMethod.js:35-37 | an operation without a row in the table gives POST |
| HttpMethod.FromOperationTable | src/builders/httpMethod.js:16-22 | read and readAll give GET, create gives POST, update gives PUT, delete gives DELETE; any other operation and the empty one give POST |
| HttpMethod.NoRow | src/builders/httpMethod.js:36 | every operation other than the five CRUD names gives POST |
| HttpMethod.OperationRows | src/builders/httpMethod.js:16-22 | the table's keys are read, readAll, create, update and delete in that order, holding GET, GET, POST, PUT and DELETE |
| HttpMethod.FromOperationIsMethod | src/builders/httpMethod.js:36 | `fromOperation` always yields a method `isHTTPMethod` accepts |
| Resource.ToPlural | src/builders/resource.js:23-28 | a final `y` is replaced by `ies`; otherwise a final `s` gains `es`; otherwise the name gains `s`; the name before the changed letter is kept, and the plural always ends in `s` |
| Resource.ToPluralExamples | src/builders/resource.js:25-27 | Entity gives Entities, Class gives Classes, Read Entity gives Read Entities, and Just AUsecase gives Just AUsecases |
| Resource.Recase | src/builders/resource.js:18-19 | the first `replace` keeps the length and re-cases each offset exactly as the pattern and replacer do there |
| Resource.RecaseKeepsLetters | src/builders/resource.js:18-19 | re-casing changes letter case only: the lower-case form and white space of every character are kept |
| Resource.RecaseWordStarts | src/builders/resource.js:18-19 | a word character after a non-word character is upper-cased; an ASCII capital is kept |
| Resource.RemoveSpaces | src/builders/resource.js:20 | the second `replace` leaves no white-space character and never lengthens the string |
| Resource.RemoveSpacesContents | src/builders/resource.js:20 | exactly the characters of the name that are not white space survive |
| Resource.ToCamelCase | src/builders/resource.js:15-21 | `toCamelCase` leaves no white space in the name |
| Resource.CamelCaseOnlyRecases | src/builders/resource.js:17-21 | folded to lower case, the camel-cased name is the name without its white space |
| Resource.CamelCaseStartsLower | src/builders/resource.js:18-19 | a name starting with a word character starts, camel-cased, with that character in lower case |
| Resource.RemoveSpacesNonEmpty | src/builders/resource.js:20 | a name with any character that is not white space keeps a non-empty result |
| Resource.RemoveSpacesFold | src/builders/resource.js:20 | two names that agree up to letter case and white space lose the same spaces |
| Resource.Build | src/builders/resource.js:7-13 | the result is empty exactly when neither an entity name nor a use-case id is set |
| Resource.BuildNameChoice | src/builders/resource.js:8-11 | the entity's name wins over the use-case id, and either one is pluralised and then camel-cased |
| Resource.CamelCaseEntityNames | test/endpoints.test.js:200 | `Entity Names` camel-cases to `entityNames` |
| Resource.CamelCaseJustAUsecases | test/endpoints.test.js:147 | `Just AUsecases` camel-cases to `justAUsecases` |
| Resource.CamelCaseReadEntities | test/endpoints.test.js:74 | `read Entities` camel-cases to `readEntities` |
| Resource.BuildFromEntityExample | test/endpoints.test.js:200 | an entity named `Entity Name` gives the resource `entityNames` |
| Resource.BuildFromUseCaseExample | test/endpoints.test.js:147-148 | a use case `Just AUsecase` without an entity gives `justAUsecases` |
| Resource.BuildReadEntityExample | test/endpoints.test.js:74 | an entity named `read Entity` gives `readEntities`, whatever the use-case id |
| Path.ParamKeys | src/builders/path.js:20 | without a plan or without a `params` bucket there are no path keys |
| Path.Template | src/builders/path.js:21 | the template is empty exactly when there are no keys |
| Path.TemplateIsJoin | src/builders/path.js:21 | for keys, the template is `/:` followed by the keys joined with `/:` |
| Path.Base | src/builders/path.js:22 | `/<version>/<resource>` with a version, `/<resource>` without one |
| Path.Build | src/builders/path.js:12-38 | the path is empty exactly when there is no resource, and otherwise starts with the versioned base |
| Path.NoPathParameters | src/builders/path.js:25-37 | POST, every method outside GET/PUT/DELETE, and GET for readAll give the bare base |
| Path.PathParameters | src/builders/path.js:20-21 | GET for other operations, PUT and DELETE append one `/:<key>` per key of the `params` bucket, in key order |
| Path.OnlyParamsBucket | src/builders/path.js:20 | two plans with the same `params` bucket give the same path, so query and body fields never reach it |
| Path.SingleParameter | src/builders/path.js:20-21 | a single `params` field `k` gives the one segment `/:k` |
| Path.TwoIdFieldsExample | test/endpoints.test.js:273 | two ID fields give `/readEntities/:idName/:idName2` |
| Path.VersionedExample | test/endpoints.test.js:482 | a read under version v1 gives `/v1/entityNames/:id` |
| Parameter.SourceRow | src/builders/parameter.js:12-17 | the row of the source table each method selects: GET params/query, POST body only, PUT params/body, DELETE params only, no row for any other method |
| Parameter.SourceTable | src/builders/parameter.js:12-17 | the IDs and payload sources of GET, POST, PUT and DELETE; a gap in a row and every method without a row fall back to body, as lines 52 and 56 do |
| Parameter.SourcesSplit | src/builders/parameter.js:12-17 | IDs and payload go to different sources exactly for GET, PUT and DELETE |
| Parameter.RewriteEntityTypes | src/builders/parameter.js:22-35 | an entity-typed field becomes the map of only the entity's ID fields to their types; an array of entities becomes a one-element array of that map; other types are unchanged |
| Parameter.MapTypes | src/builders/parameter.js:21-36 | the request keeps its keys in order, and each field's type is rewritten |
| Parameter.RequestToParameters | src/builders/parameter.js:21-36 | `requestToParameters` holds each request field with the rewritten type of its last declaration, and no other key |
| Parameter.Select | src/builders/parameter.js:46-47 | the entries kept are exactly those whose key is (or is not) an ID name, in order |
| Parameter.Buckets | src/builders/parameter.js:50-59 | no bucket is empty, each is under the IDs or the payload source, and the plan has no duplicate source |
| Parameter.Build | src/builders/parameter.js:19-60 | no empty bucket, every bucket under the method's IDs or payload source, no duplicate source |
| Parameter.BuildPartition | src/builders/parameter.js:39-58 | the other fields make the payload bucket; the ID fields make the IDs bucket unless both share a source and both are non-empty, in which case the payload bucket replaces it |
| Parameter.AllFieldsPlannedIff | src/builders/parameter.js:51-57 | every request field is planned if and only if the sources differ or one of the two groups is empty |
| Parameter.SingleIdFieldPlan | src/builders/parameter.js:51-54 | a request of one plain ID field gives one bucket under the method's IDs source |
| Parameter.PutIntoOne | src/builders/parameter.js:53-57 | assigning into an object of at most one key replaces that key or appends a second one |
| Parameter.Wrap | src/builders/parameter.js:81 | an array is kept as it is; anything else becomes a singleton |
| Parameter.CastTo | src/builders/parameter.js:79-86 | an array type gives an array as long as the wrapped value, each element cast against the element type |
| Parameter.Cast | src/builders/parameter.js:79-86 | `Parameter.cast` with a possibly missing type: an array type casts each element of the wrapped value; an entity type hands a truthy value to `fromJSON` and a falsy one to `tryParse`; any other type, and a missing one (`undefined`), goes to `tryParse` |
| Parameter.CastWrapsScalar | src/builders/parameter.js:80-83 | a non-array value cast to an array type becomes a one-element array of its cast |
| Parameter.BucketValues | src/builders/parameter.js:65-69 | one bucket's values keep the bucket's keys, each one the field read from the source and cast with its planned type |
| Parameter.PutAllBucketStep | src/builders/parameter.js:65-69 | one inner-loop step: the bucket's first field is cast and assigned before the rest |
| Parameter.SecondPass | src/builders/parameter.js:73-75 | the re-cast keeps every key in place and casts each value against the schema's type for that key |
| Parameter.Handler | src/builders/parameter.js:62-77 | the result is the second pass of the first pass: buckets in order, fields assigned in order, then every value re-cast against the request schema |
| Parameter.AssignBucket | src/builders/parameter.js:65-69 | the inner loop assigns the bucket's cast values onto the collected object, as a spread would |
| Parameter.Recast | src/builders/parameter.js:73-75 | the second loop replaces each value by its re-cast, keeping keys and order |
| Parameter.SecondPassGet | src/builders/parameter.js:73-75 | a key is present after the re-cast exactly when it was before, holding its value re-cast against the schema |
| Parameter.FirstPassKeys | src/builders/parameter.js:64-70 | the handler's keys are exactly the field names across all the plan's buckets |
| Parameter.FirstPassLastWins | src/builders/parameter.js:64-70 | a field holds the value read from the last bucket naming it, cast with that bucket's type, so later sources overwrite earlier ones |
| Parameter.HandlerField | src/builders/parameter.js:62-77 | the handler's value for a field: read from the last source that plans it, cast with the plan's type and then with the schema's |
| Parameter.ToJson | src/builders/parameter.js:88-106 | `toJSON` gives an object with one property per source, in order, each an object with one property per field of that source, in order |
| Parameter.ToJsonShape | src/builders/parameter.js:88-106 | `toJSON` keeps every source and every field, in order, and stringifies each field's type |
| Parameter.StringifyValueCases | src/builders/parameter.js:90-94 | a class becomes its name; `[T]` becomes a one-element array; an object keeps exactly its keys |
| Endpoints.EndpointId | src/builders/endpoint.js:40 | `<usecaseID>Endpoint`, with `-<version>` appended only when a version is set |
| Endpoints.Endpoint.For | src/builders/endpoint.js:22-47 | fails exactly for a use case linked to more than one entity, with that error text; otherwise a fresh endpoint with the default id, the version, the given handlers, and the use case's id, entity, operation (`other` when missing) and a copy of its request schema |
| Endpoints.Endpoint.constructor | src/builders/endpoint.js:39 | a new endpoint holds the given state |
| Endpoints.Endpoint.SetId | src/builders/endpointBuilder.js:21 | only the id changes |
| Endpoints.Endpoint.Use | src/builders/endpoint.js:49-60 | the new state and the thrown error are those of merging, initialising and validating the old state |
| Endpoints.Endpoint.MergeOptions | src/builders/endpoint.js:50-56 | each truthy argument replaces its field, and an omitted one keeps it |
| Endpoints.Endpoint.Initialize | src/builders/endpoint.js:62-72 | the fields are assigned in the source's order; a step that throws leaves the fields assigned before it |
| Endpoints.Endpoint.Validate | src/builders/endpoint.js:74-82 | the error, if any, names the first missing field in the source's order |
| Endpoints.Endpoint.ToJson | src/builders/endpoint.js:84-88 | succeeds exactly when parameters are set, and its parameters are `Parameter.toJSON` of them |
| Endpoints.ValidateState | src/builders/endpoint.js:74-82 | no error if and only if all seven fields are set (a truthy method) |
| Endpoints.ValidWhenSet | src/builders/endpoint.js:74-82 | an endpoint with every field set passes validation |
| Endpoints.InitializeStateSettles | src/builders/endpoint.js:64-65 | once the method resolves, initialisation either stops at `Object.entries(undefined)` (no parameters and no request) or derives all the other fields |
| Endpoints.Derive | src/builders/endpoint.js:65-71 | after the method step, parameters and all three handlers are set; a field that was already set keeps its value; id, version and method are unchanged, and the use case is reduced to its id |
| Endpoints.DeriveIs | src/builders/endpoint.js:65-71 | after the method, the parameters come from the settled method; the resource and path come next (the path from the settled resource and parameters); handlers default; the use case keeps only its id |
| Endpoints.ApplyUseSteps | src/builders/endpoint.js:57-58 | validation runs only when initialisation did not throw |
| Endpoints.ResolveMethod | src/builders/endpoint.js:64 | the method `#initialize` settles on is always an HTTP method token, and it fails exactly when an explicit method string upper-cases to no token |
| Endpoints.MethodResolution | src/builders/endpoint.js:64 | an explicit method string is upper-cased or rejected with its parse error; without one, the operation decides |
| Endpoints.DefaultMethodIsPost | src/builders/endpoint.js:64 | a use case without an operation is tagged `other` (line 28) and so, without an explicit method, is served by POST |
| Endpoints.InitializeFills | src/builders/endpoint.js:62-72 | after a successful initialisation: the method is a token; parameters are set; the three handlers are given or default; set fields are kept; resource and path are empty only when nothing names the endpoint; the use case keeps only its id |
| Endpoints.ValidateAfterInitialize | src/builders/endpoint.js:62-82 | after a successful initialisation, validation can only fail on the resource name, with that message |
| Endpoints.UseKeepsOverrides | src/builders/endpoint.js:50-56 | each given argument replaces the field and each omitted one keeps the earlier value, whether or not the rest of `use` succeeds |
| Endpoints.UseOutcome | src/builders/endpoint.js:49-82 | `use` succeeds if and only if the method resolves, parameters can be had, and some name yields a resource; it then leaves all seven fields set and the use case reduced to its id |
| Endpoints.ReadRequest | src/builders/endpoint.js:36 | the sample use case's request is copied unchanged |
| Endpoints.LiteralPaths | test/endpoints.test.js:594-595 | the literal bases `/readEntities` and `/myResource/:id` |
| Endpoints.MethodOverrideExample | test/endpoints.test.js:620 | overriding a read's method with POST moves the id to the body and gives `/readEntities` |
| Endpoints.ResourceOverrideExample | test/endpoints.test.js:594-595 | overriding a read's resource keeps GET and gives `/myResource/:id` |
| EndpointBuilders.States | src/builders/endpointBuilder.js:43 | one endpoint state per registered node, in order |
| EndpointBuilders.StatesAt | src/builders/endpointBuilder.js:43 | the `j`-th state is that of the `j`-th node's endpoint |
| EndpointBuilders.StatesAppend | src/builders/endpointBuilder.js:43 | registering a node appends exactly its endpoint's state |
| EndpointBuilders.Herbarium.constructor | src/builders/endpointBuilder.js:8 | a registry holds the given use cases and no endpoints |
| EndpointBuilders.FindUseCase | src/builders/endpointBuilder.js:17 | a found use case is registered under the id, and none is found exactly when no use case has that id |
| EndpointBuilders.LinkedAppend | src/builders/endpointBuilder.js:36-38 | adding a node links its use case exactly when the node's version is the builder's |
| EndpointBuilders.LinkedMember | src/builders/endpointBuilder.js:36-38 | a use case counts as linked exactly when some node of the version names it |
| EndpointBuilders.Pending | src/builders/endpointBuilder.js:34-41 | every pending use case is registered, not ignored and not linked |
| EndpointBuilders.PendingStep | src/builders/endpointBuilder.js:35-41 | an ignored or linked use case is passed over; any other one is pending, before the rest |
| EndpointBuilders.NothingPending | src/builders/endpointBuilder.js:35-41 | nothing is pending once every use case is ignored or linked |
| EndpointBuilders.Default | src/builders/endpointBuilder.js:42 | the default endpoint fails with the too-many-entities error for a use case with several entities, and otherwise has the default id and the builder's version |
| EndpointBuilders.RegisteredSkip | src/builders/endpointBuilder.js:35 | the walk passes over an ignored or linked use case unchanged |
| EndpointBuilders.RegisteredVisit | src/builders/endpointBuilder.js:41-45 | at a pending use case the walk stops on failure, or records the endpoint and continues with that use case now linked |
| EndpointBuilders.CoversCons | src/builders/endpointBuilder.js:41-45 | one more success in front extends a walk that matches the pending use cases |
| EndpointBuilders.RegisteredArePending | src/builders/endpointBuilder.js:31-48 | the walk registers, in order, the default endpoint of each pending use case, stopping at the first failure, and all of them when none fails |
| EndpointBuilders.NothingToRegister | src/builders/endpointBuilder.js:34-47 | with nothing pending, `build` registers nothing and meets no error, so a second `build` for the same version after one without error adds no endpoint |
| EndpointBuilders.WalkedStart | src/builders/endpointBuilder.js:34 | the loop's invariant holds before the first use case |
| EndpointBuilders.WalkedSkip | src/builders/endpointBuilder.js:35 | an ignored or linked use case keeps the invariant |
| EndpointBuilders.WalkedVisit | src/builders/endpointBuilder.js:41-45 | registering the node for a pending use case keeps the invariant |
| EndpointBuilders.WalkedStop | src/builders/endpointBuilder.js:42 | a failing `use` ends the walk with its error |
| EndpointBuilders.WalkedEnd | src/builders/endpointBuilder.js:47-48 | after the last use case the walk is complete and nothing is left pending |
| EndpointBuilders.EndpointBuilder.constructor | src/builders/endpointBuilder.js:7-14 | a builder keeps its settings and ignores nothing |
| EndpointBuilders.EndpointBuilder.For | src/builders/endpointBuilder.js:16-25 | an unknown use case gives the not-found error and changes nothing; otherwise a new endpoint in the initial state for it, with the given id or its default one, registered last and linked to the use case |
| EndpointBuilders.EndpointBuilder.Ignore | src/builders/endpointBuilder.js:27-29 | the id is appended to the ignored list |
| EndpointBuilders.EndpointBuilder.MakeDefault | src/builders/endpointBuilder.js:42 | the new node is the walk's step at this use case: a failure is the walk's error, a success is its recorded state |
| EndpointBuilders.EndpointBuilder.Advance | src/builders/endpointBuilder.js:41-45 | one registering step: the walk goes on with the new node registered last, or stops with the error and registers nothing |
| EndpointBuilders.EndpointBuilder.Link | src/builders/endpointBuilder.js:43-44 | the node goes last in the registry, paired with its use case and its endpoint's state |
| EndpointBuilders.EndpointBuilder.BuildStep | src/builders/endpointBuilder.js:35-46 | one turn of the loop: an ignored or linked use case is passed over; any other one gets its default endpoint, registered last, or stops the walk with the error and registers nothing |
| EndpointBuilders.EndpointBuilder.Build | src/builders/endpointBuilder.js:31-48 | the registry gains, in order, the default endpoint of every pending use case, each fresh and linked to it, up to the first failure, which is returned; with no failure nothing is left pending |
| PopulateMetadata.CrudToVerb | src/populateMetadata.js:8-17 | GET exactly for read and readAll, PUT exactly for update, DELETE exactly for delete, POST for everything else |
| PopulateMetadata.CrudToVerbAgrees | src/populateMetadata.js:8-17 | the populator's verb table is the builders' method table |
| PopulateMetadata.ToResourceName | src/populateMetadata.js:19-27 | it is the builders' resource name, and empty exactly when neither an entity name nor a group is set |
| PopulateMetadata.CrudToPath | src/populateMetadata.js:43-60 | empty exactly without a resource; `/<resource>/:id` for read, update and delete; `/<resource>` for every other operation |
| PopulateMetadata.CrudToPathAgrees | src/populateMetadata.js:43-60 | the default path is the builders' path for the operation's own verb and a `params` bucket holding only `id` |
| PopulateMetadata.SchemaIdNames | src/populateMetadata.js:77 | fails with the `isId` TypeError exactly when the schema holds a method; otherwise the names flagged `isId` |
| PopulateMetadata.ToRequestParams | src/populateMetadata.js:62-95 | fails exactly on a schema with a method; otherwise every bucket is non-empty and is the verb's IDs or payload source |
| PopulateMetadata.ToRequestParamsPartition | src/populateMetadata.js:80-94 | the non-ID fields go to the payload source; the ID fields go to the IDs source unless the payload bucket replaced them there |
| PopulateMetadata.MapTypesEntityFree | src/builders/parameter.js:34-40 | the builders' type rewrite leaves a request without entity types as it is |
| PopulateMetadata.PlannersAgree | src/populateMetadata.js:62-95 | for a request without entity types, the populator plans the parameters as the builders do when the schema has no method, and fails when it has one |
| PopulateMetadata.Populated | src/populateMetadata.js:103-117 | fails exactly when the parameters must be planned over a schema with a method, or when no resource name exists, with the matching error; on success verb, resource and path are set |
| PopulateMetadata.PopulatedPrecedence | src/populateMetadata.js:109-112 | each override is kept as set; a missing entry is the convention's, the path from the operation and the resolved resource, the parameters from the resolved verb |
| PopulateMetadata.PopulatedController | src/populateMetadata.js:113 | the controller is the use case's, else the populator's argument, else the default controller |
| PopulateMetadata.PathIgnoresVerb | src/populateMetadata.js:109-112 | overriding the verb leaves the path as it was and changes only the parameters' placement |
| PopulateMetadata.PopulatedFixed | src/populateMetadata.js:109-117 | populating metadata that was already populated writes the same metadata again |
| PopulateMetadata.ReadPlan | src/populateMetadata.js:86-89 | the request `{ id: Number }` is planned in the verb's IDs source |
| PopulateMetadata.ReadEntitiesPath | src/populateMetadata.js:47-48 | a read of `readEntities` is served at `/readEntities/:id` |
| PopulateMetadata.ReadExample | test/populateMetadata.test.js:55-73 | a read with domain metadata only gets GET, `readEntities`, `/readEntities/:id`, `id` in `params` and the default controller |
| PopulateMetadata.VerbOverrideExample | test/populateMetadata.test.js:321-340 | overriding that read's verb with POST keeps the path and moves `id` to `body` |
| PopulateMetadata.NoResourceExample | test/populateMetadata.test.js:242-254 | a use case with neither an entity nor a group fails with the error naming it |
| PopulateMetadata.UseCaseRegistry.constructor | src/populateMetadata.js:102 | a registry holds the use cases in registration order |
| PopulateMetadata.Populate | src/populateMetadata.js:98-120 | the registry and the error are those of the walk that writes each use case's metadata in turn and stops at the first failure |
| PopulateMetadata.PopulateFromShape | src/populateMetadata.js:117 | the walk changes only the REST metadata of a use case and leaves the use cases before the start untouched |
| PopulateMetadata.PopulateFromOutcome | src/populateMetadata.js:102-118 | without an error every use case holds its populated metadata; an error is the first failing use case's, and that use case and those after it are left untouched |
| PopulateMetadata.WrittenStep | src/populateMetadata.js:117 | writing one use case extends what the rest of the walk writes |
| PopulateMetadata.PopulateFromDone | src/populateMetadata.js:102-118 | a walk that has nothing new to write meets no error and changes nothing |
| PopulateMetadata.PopulateIdempotent | src/populateMetadata.js:98-120 | running the populator twice gives what running it once does, with no error |
| LegacyCastRequest.Cast | src/legacy/helpers/castRequest.js:3-27 | `undefined` stays `undefined`; only an array-of type can throw, and it does for a defined non-array value; a mapped array keeps its length; a type matching no branch gives `undefined` |
| LegacyCastRequest.CastAll | src/legacy/helpers/castRequest.js:8 | a mapped array keeps its length, and only a nested array type can throw |
| LegacyCastRequest.CastAllPointwise | src/legacy/helpers/castRequest.js:8 | the map succeeds exactly when every element's cast does, and then holds those casts in order |
| LegacyCastRequest.CastArrayOf | src/legacy/helpers/castRequest.js:7-8 | an array value cast to an array-of type succeeds exactly when every element casts, each element to its own cast |
| LegacyCastRequest.CastScalars | src/legacy/helpers/castRequest.js:10-26 | a defined value passes through `Array`, and is converted by `Number`, `String`, `Boolean` (truthiness), `Date`, or copied into an entity instance |
| CastRequest.Cast | src/helpers/castRequest.js:3-14 | `undefined` for an undefined value or a type it does not convert, the value itself for `Array` |
| CastRequest.AgreesWithLegacy | src/helpers/castRequest.js:3-14 | on the types it converts the current cast agrees with the legacy one; on Boolean, Date and array types it gives `undefined` where the legacy one converts or throws |
| LegacyReq2Request.FailureStops | src/legacy/helpers/req2request.js:12-22 | an error thrown at one field is the error of the whole call |
| LegacyReq2Request.ToRequest | src/legacy/helpers/req2request.js:4-25 | the result is the field-by-field projection of the request onto the schema, or the first error a cast throws |
| LegacyReq2Request.CastField | src/legacy/helpers/req2request.js:13-19 | one field's value is the legacy cast of its truthy path parameter (through `castRequestParams`), else of its merged body-and-query value |
| LegacyReq2Request.ProjectedNext | src/legacy/helpers/req2request.js:19-21 | one more field: a thrown error stops the loop, `undefined` adds nothing, any other value is assigned |
| LegacyReq2Request.ProjectedFails | src/legacy/helpers/req2request.js:12-22 | the call throws exactly when the cast of some schema field throws |
| LegacyReq2Request.ProjectedGet | src/legacy/helpers/req2request.js:12-24 | on success a key is in the output exactly when it is a schema field whose cast is not `undefined`, and it holds that value |
| LegacyReq2Request.Input | src/legacy/helpers/req2request.js:9-17 | the value handed to the cast: a truthy path parameter, through `castRequestParams`, wins; otherwise a query value shadows a body value of the same name; a field found nowhere reads as `undefined` |
| LegacyReq2Request.SampleReqSources | test/req2request.test.js:40-49 | the sample request holds `name`, `number` in the body and `ids` as a path parameter |
| LegacyReq2Request.SampleCasts | test/req2request.test.js:39-60 | the sample's fields cast to `'test'`, `1` and `[1]` |
| LegacyReq2Request.SampleIdsCast | src/legacy/helpers/castRequest.js:7-14 | `['1']` cast to `[Number]` is `[1]` |
| LegacyReq2Request.SampleWalk | src/legacy/helpers/req2request.js:12-22 | the loop over the sample schema lists the three cast values in schema order |
| LegacyReq2Request.ProjectedAllDefined | src/legacy/helpers/req2request.js:12-24 | when every field's cast is defined, the output lists the schema's fields in schema order with those values |
| LegacyReq2Request.PairsExtend | src/legacy/helpers/req2request.js:21 | assigning the next field extends the listed pairs by one |
| LegacyReq2Request.SampleRequest | test/req2request.test.js:39-60 | the sample request gives `{ name: 'test', number: 1, ids: [1] }` |
| LegacyReq2Request.FirstSampleReqSources | test/req2request.test.js:19-27 | the first sample request holds `name` in the body and `number` as a path parameter, and `ids` nowhere |
| LegacyReq2Request.FirstSampleCasts | src/legacy/helpers/req2request.js:15-19 | the first sample's fields cast to `'test'`, `1` and `undefined` |
| LegacyReq2Request.FirstSampleWalk | src/legacy/helpers/req2request.js:12-22 | the loop over the sample schema keeps `name` and `number` and leaves the `undefined` `ids` out |
| LegacyReq2Request.FirstSampleRequest | test/req2request.test.js:18-37 | the first sample request gives `{ name: 'test', number: 1 }` |
| Req2Request.ToRequest | src/helpers/req2request.js:3-16 | the result is the field-by-field projection of `req` onto the schema |
| Req2Request.ProjectedGet | src/helpers/req2request.js:8-13 | a key is in the output exactly when it is a schema field whose cast of `req[field]` is not `undefined`, and it then holds that value |
| Req2Request.KeysFromSchema | src/helpers/req2request.js:8-13 | every output key is a schema field |
| Req2Request.SourcesAreNotFields | src/helpers/req2request.js:8-13 | a request none of whose own keys is a schema field gives `{}` |
| Req2Request.SampleSchemaDistinct | test/req2request.test.js:9-13 | the sample schema's field names are distinct |
| Req2Request.SampleRequestIsDropped | test/req2request.test.js:18-37 | the first sample request, whose fields sit under `body` and `params`, gives `{}` |
| GenerateControllers.Pairs | src/generateControllers.js:34-36 | one `(entity, group)` pair per use case, in order |
| GenerateControllers.FirstOccurrencesMembers | src/generateControllers.js:37-39 | the filter keeps exactly the elements that occur in its input |
| GenerateControllers.FirstOccurrencesDistinct | src/generateControllers.js:37-39 | the filter keeps no element twice |
| GenerateControllers.FirstOccurrencesPositions | src/generateControllers.js:37-39 | the kept elements sit at increasing positions of the input, each at its element's first occurrence |
| GenerateControllers.FindEntitiesAndGroups | src/generateControllers.js:33-41 | `findEntitiesAndGroups` lists no pair twice, and lists exactly the `(entity, group)` pairs of the use cases |
| GenerateControllers.EntitiesAndGroups | src/generateControllers.js:33-41 | `findEntitiesAndGroups` lists every `(entity, group)` pair of the use cases exactly once, in the order each first occurs |
| GenerateControllers.FindFirst | src/generateControllers.js:45-49 | a use case is found exactly when one has that entity and operation, and it is the first such one |
| GenerateControllers.ResolveEntity | src/generateControllers.js:7-8 | an entity class is used as is; a name resolves exactly when the herbarium holds that entity; no entity throws the `schema` TypeError |
| GenerateControllers.IdName | src/generateControllers.js:15 | the name of the first ID field when it has a non-empty one, `'id'` otherwise, never empty |
| GenerateControllers.DefinedGet | src/generateControllers.js:21-25 | deleting the `undefined` properties removes exactly those and leaves the others as they were |
| GenerateControllers.DropEntry | src/generateControllers.js:22-23 | a key held once reads its value, and deleting it removes just that entry |
| GenerateControllers.DropStep | src/generateControllers.js:21-25 | one key of the loop occurs neither before nor after its place, and the kept prefix grows by it unless it is `undefined` |
| GenerateControllers.DropIteration | src/generateControllers.js:21-25 | one iteration of the deletion loop keeps its invariant |
| GenerateControllers.DropUndefined | src/generateControllers.js:21-25 | the object afterwards holds exactly the properties that were not `undefined`, in order |
| GenerateControllers.InitialDistinct | src/generateControllers.js:11-19 | every property of the literal is named once |
| GenerateControllers.MapStops | src/generateControllers.js:6-29 | once the callback throws for an element, the map stops with that error |
| GenerateControllers.MapPointwise | src/generateControllers.js:6-29 | the map succeeds exactly when the callback does for every element, and then lists those results in order |
| GenerateControllers.MapStep | src/generateControllers.js:6-29 | one more element: its result is appended, or its error ends the map |
| GenerateControllers.MapFirstError | src/generateControllers.js:6-29 | the first element whose callback throws decides the error |
| GenerateControllers.Controllers | src/generateControllers.js:3-31 | `generateControllers` succeeds exactly when every distinct pair's entry does, and then gives one entry per pair, in order |
| GenerateControllers.ControllersPointwise | src/generateControllers.js:3-31 | one entry per distinct `(entity, group)` pair, in order, or the error of the first pair whose entry throws |
| GenerateControllers.BuildEntry | src/generateControllers.js:6-28 | the callback's result is the pair's entry, or the TypeError building it throws |
| GenerateControllers.GenerateControllers | src/generateControllers.js:3-31 | the result is the list of entries of the distinct pairs, or the first error |
| GenerateControllers.SlotEntry | src/generateControllers.js:14-18 | a slot is present exactly when the entity has a use case for the operation, and then holds the first one, the controller, its REST metadata, and the id name only for `getById` |
| GenerateControllers.InitialGet | src/generateControllers.js:11-19 | what the literal holds under each of its seven keys, and that it holds no other key |
| GenerateControllers.EntryContents | src/generateControllers.js:6-28 | a built entry holds the entity, the group as `name` when there is one, and one slot per CRUD operation the entity has a use case for, `getById` carrying the first ID field's name or `'id'`; nothing else |
| ControllerEntries.NameOfEntry | src/generateControllers.js:13 | an entry's `name` is its pair's group |
| ControllerEntries.SlotOfEntry | src/generateControllers.js:14-18 | the slot under each slot key is the first use case of that slot's operation, with the controller and, for `getById` only, the id name |
| ControllerEntries.PairIdName | src/generateControllers.js:10-15 | the id name of a pair's entity is never empty |
| ControllerEntries.EntityOfEntry | src/generateControllers.js:7-12 | an entry's `entity` is its pair's resolved entity |
| GenerateRoutes.SlotRegistration | src/generateRoutes.js:12-70 | a present slot registers its slot's verb and request sources under `/<name>`, or `/<name>/:<idParameter>` (`:id` without one) for getById, put and delete, calling its custom controller or else the default one |
| GenerateRoutes.EntryRoutesSpec | src/generateRoutes.js:10-70 | an entry throws exactly when a slot it has is described and has no use case; otherwise it registers one route per slot it has, in the order getAll, getById, post, put, delete |
| GenerateRoutes.RoutesSpec | src/generateRoutes.js:9-71 | the entries in turn end without error exactly when no described slot lacks its use case, and then register every entry's routes in list order |
| GenerateRoutes.RoutesAsWritten | src/generateRoutes.js:3-72 | as written, every slot's use case is described whatever `endpointInfo` says: the run ends without error exactly when every slot an entry has names its use case, and then registers every entry's routes in list order |
| GenerateRoutes.Routes | src/generateRoutes.js:5-14 | corrected: a use case described only for a printed line; the run then throws only with `endpointInfo` set, and without it registers every entry's routes in list order |
| GenerateRoutes.RegisterSlot | src/generateRoutes.js:12-22 | one slot block appends the slot's route, or throws before registering |
| GenerateRoutes.EntryEnds | src/generateRoutes.js:12-70 | once a block throws, or after the last block, what was registered is the entry's routes |
| GenerateRoutes.EntryStarts | src/generateRoutes.js:9-11 | before the first block nothing is registered |
| GenerateRoutes.RegisterNext | src/generateRoutes.js:12-70 | the next block extends what the blocks before it registered |
| GenerateRoutes.RegisterEntry | src/generateRoutes.js:9-71 | the callback for one entry appends that entry's routes and returns its error |
| GenerateRoutes.GenerateRoutes | src/generateRoutes.js:3-72 | as written (every use case described): the router gains the routes of the entries in order; a TypeError ends the run and the routes before it stay registered |
| GenerateRoutes.GetAllOnlyThrows | src/generateRoutes.js:14 | as written, `[{ name, getAll: {} }]` throws `controller.getAll.useCase is not a function` and registers nothing, whether or not it logs |
| GenerateRoutes.GetAllMessage | src/generateRoutes.js:14 | the getAll slot's TypeError message |
| GenerateRoutes.FirstSlotThrows | src/generateRoutes.js:12-14 | an entry whose getAll slot throws registers nothing |
| GenerateRoutes.GetAllOnlyRegisters | test/generateRoutes.test.js:7-27 | describing only for a printed log line, `[{ name: 'lists', getAll: {} }]` registers `GET /lists` with the default controller |
| GenerateRoutes.GetByIdOnlyRegisters | test/generateRoutes.test.js:28-48 | `[{ name: 'lists', getById: {} }]` registers `GET /lists/:id` |
| GenerateRoutes.SlotAsWritten | src/generateRoutes.js:12-18 | reading a `generateControllers` entry by the names this code uses finds a slot exactly where the entity has a use case for the operation, and none of them names its use case |
| GenerateRoutes.SlotIntended | src/generateControllers.js:14-18 | reading an entry by the properties it holds, each slot registers the expected route and names its use case |
| GenerateRoutes.SlotRegisters | src/generateRoutes.js:12-70 | a slot holding the first use case of its operation registers the expected route |
| GenerateRoutes.IntendedFromSlot | src/generateRoutes.js:12-70 | the route a slot registers, read from the entry's properties |
| GenerateRoutes.ReadAllAsWritten | src/generateRoutes.js:9 | one entry read per built entry, in order |
| GenerateRoutes.ReadAllIntended | src/generateRoutes.js:9 | one entry read per built entry, in order |
| GenerateRoutes.EntryAsWritten | src/generateRoutes.js:12-70 | as written, a pair's entry registers no route, and throws exactly when the entity has a use case for one of the five operations |
| GenerateRoutes.EntryIntended | src/generateRoutes.js:12-70 | read by its properties, a pair's entry registers exactly the routes it is meant to, described or not |
| GenerateRoutes.GeneratedRoutesAsWritten | test/generateControllers.test.js:69-86 | as written, the routes generated from `generateControllers` entries register nothing, and the run throws once an entity has a use case for one of the five operations |
| GenerateRoutes.GeneratedRoutesIntended | src/generateControllers.js:3-31 | read by their properties, the generated entries register, logged or not, the routes each pair is meant to, pair by pair |
| LegacyGenerateRoutes.Or | src/legacy/generateRoutes.js:32 | `a \|\| b` on strings: `a` unless it is empty |
| LegacyGenerateRoutes.FirstNonEmpty | src/legacy/generateRoutes.js:32 | the first non-empty string of the chain, and empty exactly when all of them are |
| LegacyGenerateRoutes.IdFieldName | src/legacy/generateRoutes.js:14-17 | empty without an entity; with one, it throws exactly when the schema lookup does (the `isId` TypeError), and a non-empty result is the first ID field's name |
| LegacyGenerateRoutes.ParamOf | src/legacy/generateRoutes.js:32-68 | an id slot's path parameter is never empty; the slot's own `id` comes first, then the ID field name, and put and delete fall back to `'id'` |
| LegacyGenerateRoutes.ParamSpec | src/legacy/generateRoutes.js:32-68 | an id slot's path parameter is never empty: the first non-empty of the slot's `id`, the ID field name, `idEntity` (getById only) and `'id'` |
| LegacyGenerateRoutes.RouteRoutesSpec | src/legacy/generateRoutes.js:11-78 | an entry throws exactly when its ID field lookup throws or a slot it has lacks its use case; otherwise it registers one route per slot, in the order getAll, getById, post, put, delete |
| LegacyGenerateRoutes.RegisterSlot | src/legacy/generateRoutes.js:19-29 | one slot block appends the slot's route, or throws before registering |
| LegacyGenerateRoutes.RouteStarts | src/legacy/generateRoutes.js:11-12 | before the first block nothing is registered |
| LegacyGenerateRoutes.RouteEnds | src/legacy/generateRoutes.js:19-77 | once a block throws, or after the last block, what was registered is the entry's routes |
| LegacyGenerateRoutes.RegisterNext | src/legacy/generateRoutes.js:19-77 | the next block extends what the blocks before it registered |
| LegacyGenerateRoutes.FindIdFieldName | src/legacy/generateRoutes.js:14-17 | the callback's lookup gives the entry's ID field name or its TypeError |
| LegacyGenerateRoutes.RegisterSlots | src/legacy/generateRoutes.js:19-77 | the five blocks append the entry's slot routes in order, up to the first throw |
| LegacyGenerateRoutes.RegisterRoute | src/legacy/generateRoutes.js:11-78 | the callback for one entry appends that entry's routes and returns its error |
| LegacyGenerateRoutes.GenerateRoutes | src/legacy/generateRoutes.js:1-79 | the router gains the routes of the entries in order; a TypeError ends the run and the routes before it stay registered |
| LegacyGenerateRoutes.GetByIdWithIdRegisters | test/legacy/generateRoutes.test.js:71-91 | an entry with only getById over an entity with an ID field registers `GET /<name>/:<ID field>` with its own controller |
| LegacyGenerateRoutes.AsRoutes | src/legacy/generateRoutes.js:11 | one route entry per built entry, in order |
| LegacyGenerateRoutes.SlotRegisters | src/legacy/generateRoutes.js:19-77 | a slot holding the first use case of its operation registers the expected route |
| LegacyGenerateRoutes.IdFieldOfEntry | src/legacy/generateRoutes.js:14-17 | a built entry's ID field lookup does not throw and finds the name its slots use |
| LegacyGenerateRoutes.RouteOfEntry | src/legacy/generateRoutes.js:11-78 | the entry built for a pair registers, without throwing, the routes the pair is meant to have |
| LegacyGenerateRoutes.GeneratedRoutes | src/generateControllers.js:3-31 | the entries `generateControllers` builds register here, without throwing, the routes each pair is meant to have, pair by pair |
| Routing.Render | src/generateRoutes.js:13 | a present name renders as itself |
| Routing.PathOf | src/generateRoutes.js:13-25 | `/<name>/:<id>` for the id slots, `/<name>` for the others |
| Routing.RegistrationOf | src/generateRoutes.js:15-20 | a slot registers its verb, its request sources and its path, with the given use case and controller |
| Routing.Then | src/generateRoutes.js:9-71 | a throw ends the run; otherwise the second part's routes follow the first's and its error is the run's |
| Routing.SequenceStep | src/generateRoutes.js:9 | `forEach` handles one more element after the ones before it |
| Routing.SequenceAdvance | src/generateRoutes.js:9 | an element's routes are appended after those registered so far, its error is the walk's, and a throw ends the walk |
| Routing.SequenceStops | src/generateRoutes.js:9 | once an element throws, nothing more is registered and the walk ends with that error |
| Routing.SequenceNoError | src/generateRoutes.js:9 | the walk ends without error exactly when no element throws, and then registers every element's routes in order |
| Routing.SequenceSilent | src/generateRoutes.js:9 | elements that register nothing make a walk that registers nothing |
| Routing.Router.constructor | src/generateRoutes.js:3 | a new router holds no routes |
| Routing.Router.Register | src/generateRoutes.js:15 | registering appends the route after the ones already registered |
| Meta.IdFieldNames | src/builders/parameter.js:42 | a name is listed exactly when some field of the schema carries it and is flagged `isId` |
| Meta.IdFields | src/builders/parameter.js:25-29 | the listed pairs are exactly the ID fields with their types, named as `IdFieldNames` names them |
| Meta.FirstIdField | src/generateControllers.js:10 | throws the `isId` TypeError exactly when a method comes before any ID field; no result exactly when every entry is a plain field; otherwise the first field flagged `isId` |
| Meta.FirstIdFieldIsFirstId | src/legacy/generateRoutes.js:16 | on a schema without methods, `find` settles on the first of the ID fields that the filters collect |
| Js.ToUpper | src/builders/httpMethod.js:30 | upper-casing keeps the length and maps each character |
| Js.ToLower | src/builders/resource.js:19 | lower-casing keeps the length and maps each character |
| Js.Keys | src/helpers/req2request.js:6 | the keys of an object, one per entry, in order |
| Js.Get | src/helpers/req2request.js:10 | a property is found exactly when the object has the key |
| Js.Put | src/helpers/req2request.js:12 | assigning keeps an existing key in its place or appends a new one; the key then holds the value and every other key is unchanged |
| Js.FromEntriesGet | src/builders/parameter.js:21 | `Object.fromEntries` holds under each key the value of that key's last entry, and nothing under other keys |
| Js.PutAllGet | src/legacy/helpers/req2request.js:9 | in a spread the last assignment of a key wins, and keys it does not assign keep their value |
| Js.Delete | src/generateControllers.js:23 | a deleted key is gone, and deleting a key the object does not hold changes nothing |
| Js.DeleteKeeps | src/generateControllers.js:23 | `delete` keeps every entry under another key, and keeps nothing else |
| Js.FromEntriesDistinct | src/builders/parameter.js:53 | `Object.fromEntries` of pairs with distinct keys rebuilds the object |
| Js.PutAllFresh | src/builders/endpoint.js:36 | spreading a well-formed object's remaining entries onto its prefix rebuilds it |

## Left out

- Console output: the deprecation warning of the legacy `generateRoutes` and every `info` log line are not modelled. Building a log line is modelled where it can throw: both generations describe every slot's use case whether or not the line is printed.
- Asynchrony and the registered handlers' bodies: a route is modelled by what it registers (verb, path, request sources, use case, controller). The controllers it calls (`src/defaultController.js`, `src/legacy/defaultController.js`) run the external use-case engine and are not part of this model. The same goes for the default `authorizationHandler` (`req => req.user`): handlers are opaque tokens, so defaults are told apart only by identity.
- `src/generateEndpoints.js`, `src/endpoints.js`, `src/routes.js` and `src/herbs2rest.js` are not part of this model. The first does not parse, and the others delegate to code outside these files or only re-export.
- `castRequestParams` (required by the legacy `req2request`) is not part of this model. It is a parameter of `LegacyReq2Request`, and lemmas state what they need of it as a precondition.
- The conversions `Number(v)`, `String(v)`, the time value of `new Date(v)`, herbs' `tryParse` and an entity's `fromJSON` are fields of a `Runtime` parameter, left uninterpreted. IEEE-754 arithmetic and date parsing are outside the model. `Boolean(v)` is exact (truthiness).
- The herbarium's node graph (`nodes.get/add/find`, `linkedTo`, `findBy`) is reduced to a `Herbarium` object holding the registered use cases and endpoint nodes in order. Links are the node's use-case id, and entities are compared by value.
- The `injection` map `Endpoint.for` builds from the builder dependencies is not modelled, because no other modelled code reads it.
- The `metadatas` merge of herbarium's `info.metadata(...)` is modelled as replacing the REST metadata, and only `populateMetadata`'s default convention is modelled. A custom `convention` object is not.
- Keys inherited from `Object.prototype` (an operation named `toString`, say) are not modelled: lookup tables hold only their own keys.
- A `null` controller list or route list (a TypeError at `forEach`) is not modelled. The lists are sequences.
- A `useCase` or `usecase` property that is present but not a function is not modelled: a slot either names a use case or lacks one.
- `value.map` on a value that is not an array but has a `map` method is not modelled. Only arrays map, and any other defined value throws.
- HttpMethod.Parse: upper-cases ASCII letters only. JavaScript's full Unicode mapping, under which `'poſt'` upper-cases to `POST`, is not modelled.
- Parameter.Handler: requires the plan's sources to be present in the request. In the source, buckets are never empty, so a missing source always throws a TypeError ("Cannot read properties of undefined") at `req[source][param]` (src/builders/parameter.js:67).
- Integer-like keys: JavaScript enumerates object keys that are array indices (`"0"`, `"12"`) before all others, in ascending order, in `for…in`, `Object.keys`, `Object.entries` and `Object.fromEntries`. The model keeps insertion order for every key, so for such keys the order of path segments, handler fields and request fields can differ.

## Findings

| source | as written | input that shows it | evidently intended | confidence | as-written member | corrected member |
|---|---|---|---|---|---|---|
| src/helpers/req2request.js:10 | each schema field is read as `req[field]`, but the request it is given holds the sources (`body`, `query`, `params`) as its keys, so every field is dropped | the request `{ body: { name: 'test', otherUnused: '' }, params: { number: '1' } }` of test/req2request.test.js:19-27 gives `{}` | the fields are looked up in the request's sources, as the older helper does, giving `{ name: 'test', number: 1 }` | not executed; medium, since the test may have been written for the older helper | Req2Request.SampleRequestIsDropped | LegacyReq2Request.FirstSampleRequest |
| src/generateRoutes.js:14 | the log line's template calls `useCase().description` whether or not `endpointInfo` prints it, so a slot without a use case throws before its route is registered | `[{ name: 'lists', getAll: {} }]` of test/generateRoutes.test.js:11-16 throws `controller.getAll.useCase is not a function` and registers nothing | the use case is described only for a printed line, and `GET /lists` is registered | not executed; high | GenerateRoutes.GetAllOnlyThrows | GenerateRoutes.GetAllOnlyRegisters |
| src/generateRoutes.js:17-18 | the routes read `useCase`, `customController` and `idParameter`, while `generateControllers` (src/generateControllers.js:14-18) writes `usecase`, `controller` and `id`, so no slot it builds names its use case | a herbarium with one readAll use case of group `Test` (test/generateControllers.test.js:69-86) | `GET /test` is registered, calling that use case through the controller | not executed; medium | GenerateRoutes.GeneratedRoutesAsWritten | GenerateRoutes.GeneratedRoutesIntended |
