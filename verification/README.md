# swagger-ngrx-generator, modelled in Dafny

The repository holds `ngrx_generator.py` and the files it generated into `ngrx/`. The generator reads an OpenAPI 3.0 or Swagger 2.0 document and writes an Angular NgRx store for it: models, actions, reducers, effects, selectors and services.

This project models the generator's pure core. Each function works on typed records rather than raw JSON:

- identifier casing;
- path-parameter extraction;
- schema-to-TypeScript type mapping;
- response-type selection;
- operation extraction;
- base-URL derivation;
- interface emission;
- grouping operations by tag;
- the service template, meaning the URL substitution and the body rule per HTTP verb.

It also models the five generated reducers. They are one generic reducer (`Reducer`) over a state of `loading`, `error` and a sequence of optional data slots. Each reducer file is an instance of it, with its own operation enumeration, slot names and initial state.

Modelling decisions:

- **Records.** A JSON object the generator reads becomes a record of `Option` fields: `Schema`, `OperationObject` and `Document`. `None` means the key is absent.
- **Dicts.** A Python dict becomes an association list `Dict<V> = seq<(string, V)>`, so that `.items()` order is kept. `Get` returns the first binding.
- **Exceptions.** The two exceptions `_extract_base_url` can raise on a document of this shape are modelled as `BaseUrl.Error`: `KeyError('url')` and `IndexError` on an empty `schemes` list.
- **Case mapping.** Letters change case only in the ASCII range. `str.capitalize`, `upper` and `lower` leave every other character unchanged.
- **Output.** Generated files are sequences of lines, in place of the `'\n'`-joined text.
- **Reducer payloads.** Data and error payloads are type parameters, and `None` stands for `null`. An action whose index names no slot has no `on(...)` case, so it leaves the state unchanged.

## Model

| member | source | states |
|---|---|---|
| Casing.Capitalize | ngrx_generator.py:43 | `str.capitalize`: same length, same letters ignoring case, first character not lower case, no later character upper case, `_` kept or absent alike |
| Casing.CapitalizeIgnoresCase | ngrx_generator.py:43 | two words that are equal up to case capitalise to the same text |
| Casing.LowerCapitalizeAll | ngrx_generator.py:43 | ignoring case, capitalising every `_`-piece and gluing them is gluing the pieces unchanged |
| Casing.CamelCase | ngrx_generator.py:40-43 | the result has no `_`; a name with no `_` is returned unchanged |
| Casing.PascalCase | ngrx_generator.py:45-47 | the result has no `_`; a name with no `_` is just capitalised |
| Casing.JoinSplitIsWithout | ngrx_generator.py:42-43 | splitting on `_` and joining with `''` deletes exactly the underscores (a reference definition `Without`) |
| Casing.CamelCaseDropsOnlyUnderscores | ngrx_generator.py:40-43 | ignoring case, camel case is the input with underscores removed, and its length is the input's minus the number of `_` |
| Casing.PascalCaseDropsOnlyUnderscores | ngrx_generator.py:45-47 | the same for Pascal case |
| Casing.CamelAndPascalShareTail | ngrx_generator.py:40-47 | the two conversions agree after the first `_`-piece; camel case keeps that piece verbatim and Pascal case capitalises it |
| Casing.PascalCaseUnderscore | ngrx_generator.py:45-47 | for a `_`-free `a`, Pascal case of `a_b` is `a` capitalised followed by Pascal case of `b`, so every piece after an `_` is capitalised too |
| Casing.CamelCaseUnderscore | ngrx_generator.py:40-43 | for a `_`-free `a`, camel case of `a_b` is `a` verbatim followed by Pascal case of `b` |
| Casing.CamelCaseOfIdentifier | ngrx_generator.py:40-43 | an identifier with no `_` is its own camel case |
| Casing.CamelCaseExample | ngrx_generator.py:40-43 | `get_product_by_id` becomes `getProductById` |
| Casing.PascalCaseExample | ngrx/actions/products.actions.ts:28-30 | `getProductById` becomes `Getproductbyid`, as in the generated action type |
| Casing.PascalCaseTagExample | ngrx/actions/products.actions.ts:3 | the tag `products` becomes `Products` |
| PathTemplates.PathParameters | ngrx_generator.py:49-51 | `re.findall(r'\{([^}]+)\}', path)`: every name is non-empty and has no `}`; a path without `{` has none |
| PathTemplates.PathParametersCount | ngrx_generator.py:49-51 | there are no more names than `{` characters in the path |
| PathTemplates.PathParametersInOrder | ngrx_generator.py:49-51 | the names occur in the path, each as `{name}`, from left to right in the order returned |
| PathTemplates.PathParametersOfTemplate | ngrx_generator.py:49-51 | for a path written from literal pieces and parameters, the extraction returns exactly the parameter names in order |
| PathTemplates.PathParametersExample | ngrx/services/products.service.ts:33-34 | `/products/{productId}/reviews` has the single parameter `productId` |
| TypeMapping.TypeScriptType | ngrx_generator.py:136-156 | `$ref` yields the text after its last `/`; `string` gives `string`, `integer` and `number` give `number`, `boolean` gives `boolean`, `object` gives `any`; a missing or unknown type gives `any`; an array type ends in `[]` |
| TypeMapping.RefTakesPriority | ngrx_generator.py:138-139 | with `$ref` present, `type` and `items` do not matter |
| TypeMapping.MissingItemsIsEmptySchema | ngrx_generator.py:152-155 | an array without `items` maps as if `items` were `{}` |
| TypeMapping.NestedArrayType | ngrx_generator.py:152-155 | an array nested `n` deep maps to the base type followed by `n` copies of `[]` |
| TypeMapping.ResponseSchemaType | ngrx_generator.py:59-67 | a direct `$ref` gives its name, an array of `$ref` gives the name with `[]`, an array whose items have no `$ref` gives `any[]`, and every other schema gives `any` |
| TypeMapping.SuccessResponse | ngrx_generator.py:55 | the `200` response whenever the key exists, otherwise the `201` one |
| TypeMapping.ReturnType | ngrx_generator.py:53-68 | without a `200` or `201` response the return type is `any` |
| TypeMapping.ReturnTypeOfJson | ngrx_generator.py:56-67 | when the chosen response has `content` with an `application/json` entry, the return type is the response-schema type of that entry's schema, `{}` when it has none |
| TypeMapping.ReturnTypeWithoutJson | ngrx_generator.py:56-68 | a chosen response without `content`, or whose `content` lacks `application/json`, gives `any` |
| TypeMapping.ReturnTypeAgainstPropertyType | ngrx_generator.py:59-67 | a reference or an array of references gets the same text as the property mapping; an inline `string` schema gives `any` here, unlike the property mapping |
| TypeMapping.ReturnTypeIgnores201When200Exists | ngrx_generator.py:55 | with a `200` response, changing everything but that response leaves the return type as it was |
| TypeMapping.ReturnTypeFallsBackTo201 | ngrx_generator.py:55 | without `200`, only the `201` response decides |
| TypeMapping.ReturnTypeShapes | ngrx_generator.py:53-68 | the return type is `any`, `any[]`, a `/`-free name, or such a name followed by `[]` |
| Operations.SanitizePathShape | ngrx_generator.py:77 | the fallback-id path has no `/`, `{` or `}`; it is shorter by the number of braces; every other character is kept |
| Operations.SanitizePath | ngrx_generator.py:77 | the three chained `replace` calls on the path, built from the model of `str.replace`; what they compute is stated by the next two rows |
| Operations.SanitizePathIsCharwise | ngrx_generator.py:77 | the chained replacements equal the character-by-character reference `SanitizedChars`: `/` becomes `_`, `{` and `}` are dropped, every other character stays in place |
| Operations.SanitizePathCons | ngrx_generator.py:77 | sanitising `c` followed by `rest` is the sanitised `c` followed by the sanitised `rest`, so the characters keep their order |
| Operations.FallbackOperationId | ngrx_generator.py:77 | the fallback `operationId` is the method key, `_`, then the path sanitised character by character |
| Operations.MakeOperation | ngrx_generator.py:77-88 | the method is the key upper-cased (equal to it ignoring case, with no lower-case letter); `operationId`, `summary` and `tags` are the declared values, or their defaults when absent; the parameters are those of the path; the return type is that of the declared responses, `any` without any |
| Operations.MethodIsUpperVerb | ngrx_generator.py:76-80 | a key that passes the filter gives one of `GET`, `POST`, `PUT`, `DELETE`, `PATCH` |
| Operations.OperationsOfItem | ngrx_generator.py:75-76 | one path item gives at most one operation per entry, all on its path |
| Operations.OperationsOfPaths | ngrx_generator.py:74-76 | the outer loop over all paths: every method is one of the five names and every operation carries its own path's parameters |
| Operations.ExtractOperations | ngrx_generator.py:70-90 | a document without `paths` gives no operations; every method is one of the five names |
| Operations.MembersOfItem | ngrx_generator.py:75-88 | the operations of a path item are exactly the records of its entries whose key is an HTTP verb, ignoring case |
| Operations.ExtractedExactly | ngrx_generator.py:74-88 | an operation is extracted if and only if some path has an HTTP-verb entry it is built from |
| Grouping.GroupTag | ngrx_generator.py:166 | the first tag, or `default` for an empty tag list |
| Grouping.AddToGroup | ngrx_generator.py:167-169 | a new tag opens a group at the end; a known tag keeps the key order |
| Grouping.AddToGroupOwnTag | ngrx_generator.py:167-169 | the operation is appended to its own tag's group |
| Grouping.AddToGroupOtherTag | ngrx_generator.py:167-169 | every other group is unchanged |
| Grouping.WithTag | ngrx_generator.py:164-169 | reference filter: the operations carrying a given tag, in order |
| Grouping.GroupByTag | ngrx_generator.py:164-169 | the loop itself, one `AddToGroup` per operation in order; what it computes is stated by the next four rows |
| Grouping.GroupByTagIsFilter | ngrx_generator.py:164-169 | the keys are the distinct tags in order of first appearance, and each group equals the reference filter for its tag |
| Grouping.ExactlyOneGroup | ngrx_generator.py:164-169 | every operation is in the group of its own tag and in no other group |
| Grouping.GroupKeysDistinct | ngrx_generator.py:164-169 | no tag heads two groups |
| Grouping.GroupsArePermutation | ngrx_generator.py:164-169 | the groups together are a permutation of the operations |
| BaseUrl.ExtractBaseUrl | ngrx_generator.py:31-38 | a non-empty `servers` gives `servers[0].url` (`KeyError` without one); otherwise `host` gives a URL, failing with `IndexError` exactly on an empty `schemes`; otherwise `/api` |
| BaseUrl.ServersTakePriority | ngrx_generator.py:33-34 | with a non-empty `servers`, the Swagger 2.0 fields are never read |
| BaseUrl.EmptyServersAreIgnored | ngrx_generator.py:33 | an empty `servers` list behaves like an absent one |
| BaseUrl.HostUrlShape | ngrx_generator.py:35-37 | the URL is the first scheme, `://`, the host and the base path; the defaults give `https://` plus the host |
| Models.OptionalMark | ngrx_generator.py:128 | `''` for a property in `required` and `?` for every other one |
| Models.PropertyLine | ngrx_generator.py:128-130 | two spaces, the name, `?` exactly for an optional property, then `: `, the TypeScript type and `;` |
| Models.InterfaceLines | ngrx_generator.py:120-134 | properties plus two lines: the `export interface` header first, `}` last, and one property line each in between, in order |
| Models.OptionalIffNotRequired | ngrx_generator.py:123-130 | the `k`-th property line carries `?` if and only if that property is not required |
| Models.NoRequiredMeansAllOptional | ngrx_generator.py:125 | a schema without `required` makes every property optional |
| Models.TaxLineExample | ngrx/models/order.model.ts:8 | `tax`, a number not in `required`, gives `  tax?: number;` |
| Models.SubtotalLineExample | ngrx/models/order.model.ts:7 | `subtotal`, a required number, gives `  subtotal: number;` |
| UrlTemplating.ServiceUrlAsWritten | ngrx_generator.py:500-502 | the source's URL: the template literal built from the path, then one `replace` pass per entry of the parameter list over the whole literal; stated by the rows below |
| UrlTemplating.ServiceUrl | ngrx_generator.py:500-502 | the corrected URL: one pass per distinct name over the path only, inside the fixed prefix and backtick; stated by the rows below |
| UrlTemplating.ReplaceEachAfterPrefix | ngrx_generator.py:500-502 | while no parameter is named `this.baseUrl`, the passes leave the prefix `${this.baseUrl}` untouched |
| UrlTemplating.ServiceUrlAsWrittenKeepsPrefix | ngrx_generator.py:500-502 | under the same condition, the source's URL is the prefix followed by the passes applied to the path and closing backtick |
| UrlTemplating.ServiceUrlOfTemplate | ngrx_generator.py:500-502 | the corrected URL of any well-formed path is the base-URL prefix, then the path with every `{p}` written as `${p}`, then the closing backtick; repeated names included |
| UrlTemplating.ServiceUrlAsWrittenOfTemplate | ngrx_generator.py:500-502 | the URL as the source builds it is that same text whenever the names are distinct and none is `this.baseUrl` |
| UrlTemplating.RepeatedParameterAsWritten | ngrx_generator.py:500-502 | a path naming one parameter twice is extracted as `[q, q]`; the source's URL then carries `$${q}` at both places and differs from the corrected one |
| UrlTemplating.RepeatedParameterExample | ngrx_generator.py:500-502 | for `/a/{id}/b/{id}` the source's URL differs from the corrected one |
| Services.BodyOfMethod | ngrx_generator.py:505-511 | `GET` and `DELETE` calls send no body; `POST`, `PUT` and `PATCH` send `payload` exactly when a request body is declared, and `{}` otherwise |
| Services.SignatureParams | ngrx_generator.py:489-495 | one `p: string` per path parameter, in order, then `payload: any` when the operation has a request body |
| Services.PayloadIsDeclared | ngrx_generator.py:492-509 | whenever the call passes `payload`, the method signature declares it |
| Services.UnsentPayload | ngrx_generator.py:492-506 | a `get` or `delete` with a request body declares `payload: any` and never sends it |
| Services.SignatureLine | ngrx_generator.py:484-497 | the method header text; its layout is the next row |
| Services.SignatureLineShape | ngrx_generator.py:484-497 | the header starts with two spaces, the action creator's name (the camel-cased id) and `(`, holds the parameter list joined with `, `, and ends with `): Observable<T> {` for the return type `T` |
| Services.CallText | ngrx_generator.py:504-511 | the call line around a given URL; its layout is the next row |
| Services.CallTextShape | ngrx_generator.py:504-511 | the call is `    return this.http.` with the lower-cased method and `<T>(`, then exactly the URL, then the body argument and `);` |
| Services.CallLine | ngrx_generator.py:499-511 | the call line built with the corrected URL; the service content uses it (see Findings) |
| Services.CallLineAsWritten | ngrx_generator.py:499-511 | the call line built with the URL as the source computes it |
| Services.CallLineAsWrittenAgrees | ngrx_generator.py:499-511 | for a well-formed path with distinct parameter names, none `this.baseUrl`, the two call lines are equal |
| Services.CallLineAsWrittenDiffers | ngrx_generator.py:499-511 | for a path naming a parameter twice, the source's call line is two characters longer than the corrected one |
| Services.CallLineUrl | ngrx_generator.py:500-511 | the corrected call line's URL is the base-URL prefix with the substituted path |
| Services.MethodLines | ngrx_generator.py:497-515 | four lines per operation: signature, call, `  }`, blank |
| Services.MethodsLinesAt | ngrx_generator.py:484-515 | line `4k+j` is line `j` of operation `k`'s four lines, for every `j` below four |
| Services.ServiceContent | ngrx_generator.py:464-518 | twelve header lines, four per operation, and a closing line |
| Services.ServiceContentFrame | ngrx_generator.py:475-517 | the class is named after the Pascal-cased tag, holds the base URL, and the last line is `}` |
| Services.ServiceContentAt | ngrx_generator.py:468-515 | after the twelve header lines, line `12+4k+j` is line `j` of operation `k`'s four lines |
| Actions.TypesOf | ngrx_generator.py:200-216 | the start type is `[Tag] Op` with both names Pascal-cased; Success and Failure append ` Success` and ` Failure` |
| Actions.TypesAreDistinct | ngrx_generator.py:200-216 | an operation's three type strings are pairwise different |
| Actions.CaseVariantsShareTypes | ngrx_generator.py:188-216 | two `_`-free ids that differ only in letter case get identical type strings |
| Actions.NamesOf | ngrx_generator.py:188-214 | the creators are named `{op}`, `{op}Success` and `{op}Failure`, with `{op}` the camel-cased id, which has no `_` and is the id itself for a `_`-free id |
| Actions.ProductByIdTypes | ngrx/actions/products.actions.ts:28-39 | `getProductById` of `products` gives `[Products] Getproductbyid` and its Success and Failure types |
| Reducer.InitialIsEmpty | ngrx_generator.py:345-352 | not loading, no error, every slot `null` |
| Reducer.Step | ngrx_generator.py:362-381 | an unhandled action changes nothing; a request sets `loading` and clears `error`; a success clears `loading` and writes its own slot only, keeping `error`; a failure clears `loading` and stores the error, keeping every slot |
| Reducer.RequestThenSuccess | ngrx_generator.py:366-375 | request then success: not loading, no error, the data in its slot, all other slots as before |
| Reducer.OnlyRequestClearsError | ngrx_generator.py:366-380 | an action that turns an error into `null` is a handled request |
| Reducer.SettledIsNotLoading | ngrx_generator.py:371-380 | after a handled success or failure `loading` is false |
| Reducer.Run | ngrx_generator.py:357-383 | running a trace keeps the number of slots |
| Reducer.RunUnhandled | ngrx_generator.py:357-383 | a trace of unhandled actions leaves the whole state unchanged |
| Reducer.SlotIsLastSuccess | ngrx_generator.py:371-375 | after a trace, a slot holds the data of the last success for it |
| Reducer.SlotWithoutSuccess | ngrx_generator.py:366-380 | a slot that no success writes keeps its starting value |
| Reducer.LoadingFollowsLastHandled | ngrx_generator.py:366-380 | `loading` is true exactly when the last handled action was a request |
| Reducer.ErrorFollowsLastSettling | ngrx_generator.py:366-380 | `error` is `null` if the last request-or-failure was a request, and that failure's payload otherwise |
| Reducer.ErrorWithoutSettling | ngrx_generator.py:366-380 | without requests or failures, `error` keeps its starting value |
| ProductsReducer.Slot | ngrx/reducers/products.reducer.ts:4-13 | each operation has its own slot, at its field's position |
| ProductsReducer.InitialProductsStateIsEmpty | ngrx/reducers/products.reducer.ts:15-24 | six slots, not loading, no error, every slot `null` |
| ProductsReducer.RequestKeepsSlots | ngrx/reducers/products.reducer.ts:28-32 | every request sets `loading`, clears `error` and keeps all six slots |
| ProductsReducer.SuccessWritesOwnSlot | ngrx/reducers/products.reducer.ts:33-37 | every success clears `loading`, writes its own slot, keeps the other five and `error` |
| ProductsReducer.FailureStoresError | ngrx/reducers/products.reducer.ts:38-42 | every failure clears `loading`, stores the payload and keeps all slots |
| ProductsReducer.CompletedRequest | ngrx/reducers/products.reducer.ts:28-37 | request then success: not loading, no error, the data in the slot |
| ProductsReducer.OnlyRequestsClearError | ngrx/reducers/products.reducer.ts:28-42 | only one of the six request actions clears a prior error |
| ProductsReducer.SlotNamesFollowTemplate | ngrx/reducers/products.reducer.ts:7-12 | each field is the camel-cased `operationId` followed by `Data` |
| UsersReducer.InitialUsersStateIsEmpty | ngrx/reducers/users.reducer.ts:15-24 | six slots, not loading, no error, every slot `null` |
| UsersReducer.RequestKeepsSlots | ngrx/reducers/users.reducer.ts:28-32 | every request sets `loading`, clears `error`, keeps the slots |
| UsersReducer.SuccessWritesOwnSlot | ngrx/reducers/users.reducer.ts:33-37 | every success writes its own slot only and keeps `error` |
| UsersReducer.FailureStoresError | ngrx/reducers/users.reducer.ts:113-117 | every failure clears `loading`, stores the error, keeps the slots |
| UsersReducer.CompletedRequest | ngrx/reducers/users.reducer.ts:28-37 | request then success: not loading, no error, the data in the slot |
| UsersReducer.GetUserProfileSuccess | ngrx/reducers/users.reducer.ts:108-112 | `getUserProfileSuccess` writes `getUserProfileData` only, clears `loading`, keeps `error` |
| UsersReducer.SettledIsIdle | ngrx/reducers/users.reducer.ts:33-42 | after any success or failure `loading` is false |
| UsersReducer.SlotNamesFollowTemplate | ngrx/reducers/users.reducer.ts:7-12 | each field is the camel-cased `operationId` followed by `Data` |
| OrdersReducer.InitialOrdersStateIsEmpty | ngrx/reducers/orders.reducer.ts:14-22 | five slots, not loading, no error, every slot `null` |
| OrdersReducer.RequestKeepsSlots | ngrx/reducers/orders.reducer.ts:86-90 | every request sets `loading`, clears `error`, keeps the slots |
| OrdersReducer.SuccessWritesOwnSlot | ngrx/reducers/orders.reducer.ts:31-35 | every success writes its own slot only and keeps `error` |
| OrdersReducer.FailureStoresError | ngrx/reducers/orders.reducer.ts:96-100 | every failure clears `loading`, stores the error, keeps the slots |
| OrdersReducer.CompletedRequest | ngrx/reducers/orders.reducer.ts:26-35 | request then success: not loading, no error, the data in the slot |
| OrdersReducer.CancelOrderSuccess | ngrx/reducers/orders.reducer.ts:91-95 | `cancelOrderSuccess` writes `cancelOrderData` only; the other four slots and `error` are kept |
| OrdersReducer.FailureSurvivesSuccess | ngrx/reducers/orders.reducer.ts:31-40 | an error stored by a failure survives any later success |
| OrdersReducer.SlotNamesFollowTemplate | ngrx/reducers/orders.reducer.ts:7-11 | each field is the camel-cased `operationId` followed by `Data` |
| CategoriesReducer.InitialCategoriesStateIsEmpty | ngrx/reducers/categories.reducer.ts:13-20 | four slots, not loading, no error, every slot `null` |
| CategoriesReducer.RequestKeepsSlots | ngrx/reducers/categories.reducer.ts:24-28 | every request sets `loading`, clears `error`, keeps the slots |
| CategoriesReducer.SuccessWritesOwnSlot | ngrx/reducers/categories.reducer.ts:29-33 | every success writes its own slot only and keeps `error` |
| CategoriesReducer.FailureStoresError | ngrx/reducers/categories.reducer.ts:79-83 | every failure clears `loading`, stores the error, keeps every slot |
| CategoriesReducer.CompletedRequest | ngrx/reducers/categories.reducer.ts:24-33 | request then success: not loading, no error, the data in the slot |
| CategoriesReducer.UpdateCategorySuccess | ngrx/reducers/categories.reducer.ts:74-78 | `updateCategorySuccess` writes `updateCategoryData` only and clears `loading` |
| CategoriesReducer.SlotNamesFollowTemplate | ngrx/reducers/categories.reducer.ts:7-10 | each field is the camel-cased `operationId` followed by `Data` |
| AuthReducer.InitialAuthStateIsEmpty | ngrx/reducers/auth.reducer.ts:12-18 | `loginData`, `registerData` and `refreshTokenData` `null`, not loading, no error |
| AuthReducer.RequestKeepsSlots | ngrx/reducers/auth.reducer.ts:22-26 | `login`, `register` and `refreshToken` set `loading`, clear `error`, keep the slots |
| AuthReducer.SuccessWritesOwnSlot | ngrx/reducers/auth.reducer.ts:27-31 | every success writes its own slot only and keeps `error` |
| AuthReducer.FailureStoresError | ngrx/reducers/auth.reducer.ts:32-36 | every failure clears `loading`, stores the error, keeps the slots |
| AuthReducer.CompletedRequest | ngrx/reducers/auth.reducer.ts:22-31 | request then success: not loading, no error, the data in the slot |
| AuthReducer.LoginSuccess | ngrx/reducers/auth.reducer.ts:27-31 | `loginSuccess` writes `loginData` only; `registerData`, `refreshTokenData` and `error` are kept |
| AuthReducer.RefreshTokenFailure | ngrx/reducers/auth.reducer.ts:62-66 | `refreshTokenFailure` clears `loading`, stores the error and keeps all three slots |
| AuthReducer.SlotNamesFollowTemplate | ngrx/reducers/auth.reducer.ts:7-9 | each field is the camel-cased `operationId` followed by `Data` |
| Sequences.Dedup | ngrx_generator.py:167-168 | the distinct elements: duplicate-free, same members as the input |
| Sequences.DedupInFirstAppearanceOrder | ngrx_generator.py:167-168 | the distinct elements come in increasing order of their first position in the input, as new dict keys do |

## Left out

- File and directory I/O: the `mkdir`/`open`/`write` parts of every `generate_*` method, `_load_swagger_file`, `generate_index_files` (a glob over the output directory), and `generate_models`' choice between `components.schemas` and `definitions`. The content functions are modelled as pure functions returning lines.
- JSON and YAML parsing, `argparse`, `main` and the console output: library calls and I/O. Documents are given as typed records.
- Keys the generator never reads are not in the records. A `requestBody` entry is modelled only by its presence, which is all the generator reads.
- The full text of `_generate_actions_content`, `_generate_effects_content` and `_generate_selector_content` is fixed boilerplate. Of the actions, only the type strings and creator names are modelled; the `props<...>` lines are not.
- The method signature line and the `HttpClient` call line are stated as head, middle and tail text (`SignatureLineShape`, `CallTextShape`); the parameter-list and body texts inside them are stated by their own rows, not re-derived character by character.
- The generated effects, selectors, services, actions and models under `ngrx/`: effects are RxJS stream plumbing, and the rest are type declarations or one-line projections. Generated files are cited only as concrete expected outputs.
- Unicode case mapping: letters change case only in the ASCII range.
- Reducer payloads are opaque. A failure whose payload is itself `null` is recorded as `Some` of that payload, and is not identified with "no error".
- Two operations whose camel-cased ids coincide would produce duplicate `on(...)` cases and data fields. The model gives each operation its own slot and does not describe the duplicate-key TypeScript that would result.
- Reducer.Step: actions are dispatched by operation index, while NgRx matches an action by its type string. Two operations of one tag whose ids differ only in letter case (`getUser` and `GetUser`) have distinct creators but equal type strings (`Actions.CaseVariantsShareTypes`), so every `on(...)` case of either fires for an action of the other and both slots are written. The model does not describe that case; it treats the type strings within a tag as distinct.
- Services.CallLine: the service content (`MethodLines`, `MethodsLinesAt`, `ServiceContent`, `ServiceContentAt`) is built from the corrected URL. The call line as the source builds it is `Services.CallLineAsWritten`. `CallLineAsWrittenAgrees` proves that it is the same line when the parameter names are distinct and none is `this.baseUrl`, and `CallLineAsWrittenDiffers` shows the difference for a repeated name (see Findings).
- `Operations.FallbackOperationId` is stated against the character-by-character reference `SanitizedChars`; no concrete literal example is proved, because evaluating the replacements on a literal path is too costly for the verifier.

## Findings

| source | as written | input that shows it | evidently intended | confidence | as-written member | corrected member |
|---|---|---|---|---|---|---|
| ngrx_generator.py:500-502 | each path parameter's `{p}` is replaced by `${p}` over the whole URL, once per entry of the parameter list, duplicates included | the path `/a/{id}/b/{id}`: the list is `['id', 'id']`, and the second pass turns each `${id}` into `$${id}` | each parameter written once as `${p}`, giving `` `${this.baseUrl}/a/${id}/b/${id}` `` | not executed | UrlTemplating.RepeatedParameterAsWritten | UrlTemplating.ServiceUrlOfTemplate |
