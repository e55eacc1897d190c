# Keksly consent core in Dafny

This project models the consent-state core of keksly.js, a cookie-consent widget. The core covers:

- how the configuration is resolved (`deepMerge` of a page-supplied override onto the built-in defaults);
- how consent is loaded, version-checked, saved and recorded in a history (against `localStorage`);
- how consent is applied: one record pushed to `window.dataLayer`, the Google Consent Mode update command, and the activation of `<script type="text/plain" data-service="…">` elements.

Modules:

- `JsValue` (js_value.dfy): JavaScript values with ordered object members. `Get`/`Put` behave like property read and write, `Assign` like `Object.assign` and spread. It also defines truthiness, `Number(...)` and `String(...)` on integers.
- `JsonCodec` (json_codec.dfy): `JSON.stringify` and `JSON.parse` as real text functions, with an explicit `Malformed` result. Stringify drops `undefined` members, writes `undefined` array items as `null`, and escapes control characters.
- `DeepMerge` (deep_merge.dfy): `deepMerge` at the level of values, member order included.
- `Configuration` (config.dfy): the default configuration, `Resolve`, and `ReadConfig`, which reads the version, the services (`id`, `required`, `category`) and the `gcm` switch.
- `ConsentRules` (consent_rules.dfy): the rules for consent state and storage, as functions of the configuration and the store. These cover loading, saving, the banner buttons, history, the user id and reset.
- `ConsentMode` (consent_mode.dfy): the four consent-mode flags and the `gcm.enabled` switch.
- `ScriptGate` (script_gate.dfy): script blocking on element records.
- `Uuid` (uuid.dfy): the fallback template fill of `generateUuid`.
- `Engine` (engine.dfy): the module-level state as the class `Keksly`, with `localStorage` as the class `Storage`.
  - The methods loop over the services and over the document array, and update fields in place.
  - Each method is proved equal to the functions of the modules above.

`Storage.admits` is a parameter that decides whether a `setItem` succeeds. A failed write leaves the store unchanged, like a swallowed exception. The clock, the random nibbles, the id a browser would generate and the page's document are inputs.

Three behaviours of the code are easy to miss:

- **Arrays merge.** `deepMerge` tests `instanceof Object`, so arrays merge index by index: the result is as long as the longer array, and base elements past the override's end remain. A `services` override therefore does not replace the default list: a user's first service merges into the built-in `essential` service and inherits its `required: true` and its category (`Configuration.FirstServiceInheritsEssential`).
- **Reject-all.** Reject-all stores each service's raw `required` value, so a service without `required` gets `undefined`, and stringify drops it from the stored blob.
- **Truthy, not `true`.** Script activation and the consent-mode flags test that the consent entry is truthy, not that it is `true`.

## Model

| member | source | states |
|---|---|---|
| DeepMerge.MergeObject | keksly.js:65-73 | Merging objects: a base key the override lacks keeps its value. An override member that is not an array or object (null, string, number), whose key the base lacks, or whose base value is keyless (`undefined`, `null`, a boolean, a number, `''`), is taken as it is. An override container on a container of the same kind is merged recursively. No base key is lost. |
| DeepMerge.MergeMemberAt | keksly.js:66-71 | One override member reads, after the merge, as its value after the loop's visit. |
| DeepMerge.MergeKeeps | keksly.js:71 | A base key absent from the override reads as before. |
| DeepMerge.MergeArray | keksly.js:65-73 | Arrays merge index-wise. The length is the larger of the two. An override container on a base container is merged into it; any other override element, including one over a keyless base element, replaces it. Base elements past the override's end remain. |
| DeepMerge.NestedAgrees | keksly.js:67-69 | The container the loop leaves in the override reads exactly like the merged value: the same array, or an object with the same lookups. Over a keyless base, `deepMerge` returns the base and the override container is left unchanged. |
| DeepMerge.PrepMembers | keksly.js:66-70 | The loop over the override keeps the override's keys in order. |
| DeepMerge.AssignItems | keksly.js:71 | `Object.assign` on arrays: the length is the larger of the two, the override's elements come first, and the base's tail is kept. |
| Configuration.Resolve | keksly.js:104-129 | Without an override, or with a keyless one (a number, a boolean, or a fetched `null` whose `Object.keys` throw is caught), the defaults are used. An object override yields an object. |
| Configuration.DefaultsRead | keksly.js:6-54 | The defaults read as version 1 and one service `essential` (required, category `security_storage`), with consent mode enabled. |
| Configuration.FirstServiceInheritsEssential | keksly.js:65-73 | An override whose one service gives only `id` and `name` is mergeable. The result has that id with `required: true` and category `security_storage` inherited from `essential`. |
| Configuration.InheritedService | keksly.js:65-73 | The same for any default list of one service and any bare override service: `required` and `category` come from the default entry, and the id from the override. |
| Configuration.ServicesOf | keksly.js:164 | The service list reads when every entry reads (an entry throws exactly when it is `null` or `undefined`), entry for entry. |
| JsValue.Put | keksly.js:165 | `o[k] = v`: `k` reads `v`, every other key reads as before, and a new key is appended (JavaScript's order for keys that are not integer-like). |
| JsValue.Assign | keksly.js:239 | Spread: keys of the second object win, other keys keep the first object's value, the keys are the union, and distinct keys are kept. |
| JsValue.NumberStringRoundTrip | keksly.js:158 | `Number(String(i))` is `i` for every integer, so the version marker reads back as written. |
| JsonCodec.StringifyParse | keksly.js:171 | `JSON.parse(JSON.stringify(v))` is what stringify keeps of `v`, for any value with distinct keys. |
| JsonCodec.ParseJson | keksly.js:171 | A successful parse yields JSON: distinct keys at every depth and no `undefined`. |
| ConsentRules.ConfigVersion | keksly.js:157 | A falsy configured version reads as 1, and a non-zero number as itself. |
| ConsentRules.LastIndex | keksly.js:164-166 | The last service with a given id, or none. |
| ConsentRules.AssignedReads | keksly.js:162-167 | Initial state: the built state maps exactly the configured ids, each to the value of the last service with that id, with distinct keys. |
| ConsentRules.AcceptAllGrants | keksly.js:361-363 | Accept-all maps every configured id to `true` and holds no other key. |
| ConsentRules.ForceRequiredGet | keksly.js:190-192 | After forcing, a required id reads `true` and every other key reads as before. |
| ConsentRules.ForceRequiredGrants | keksly.js:190-192 | After forcing, every service with truthy `required` reads `true`. |
| ConsentRules.ForceRequiredKeys | keksly.js:190-192 | Forcing loses no key and keeps keys distinct. |
| ConsentRules.ForceRequiredNoop | keksly.js:190-192 | Forcing changes nothing where the required services already read `true`. |
| ConsentRules.LoadGrantsRequired | keksly.js:156-197 | After every load that does not throw, every required service reads `true` and keys are distinct. |
| ConsentRules.VersionBump | keksly.js:179-189 | On a version mismatch, stored consent is discarded: every configured id reads `true` if a service with that id is required and `false` otherwise, and no other key is kept. The consent blob is removed, the marker is rewritten when the write is admitted, and the banner shows. |
| ConsentRules.NaNVersionResets | keksly.js:157-179 | A configured version `Number` cannot read never matches, so every load discards consent and shows the banner. |
| ConsentRules.VersionMatch | keksly.js:169-197 | With a matching version, the following hold. (1) The store is untouched. (2) The banner shows iff no blob was stored. (3) A stored object keeps every entry, including ids no longer configured, except that required ids read `true`. (4) Unparseable text counts as `{}`. (5) The load fails iff the blob parses to a non-object. |
| ConsentRules.BannerDecision | keksly.js:136-140 | After a load, `shouldShowBanner \|\| !getItem('keksly_consent')` equals `shouldShowBanner`. |
| ConsentRules.SaveMerges | keksly.js:238-242 | Saving: keys of the new state win, other keys keep their old value, required services read `true`, no key is lost, and keys stay distinct. |
| ConsentRules.SavedStoreReads | keksly.js:243-246 | After both writes, the blob parses back to what stringify kept and the marker reads back as the version. |
| ConsentRules.LoadOfSaved | keksly.js:156-197 | A store with a matching marker and a blob that parses to an object with the required services granted loads as that object, with no banner. |
| ConsentRules.NormalizeKeepsGranted | keksly.js:245 | Stringify keeps the required services' `true`. |
| ConsentRules.SaveIdempotent | keksly.js:238-242 | Saving the same choice a second time leaves every key reading what the first save left. |
| ConsentRules.SaveThenLoad | keksly.js:238-246 | Save, then load under the same numeric version: this gives what stringify keeps of the saved state, with no banner. For a state of JSON values (booleans) that is the state itself. |
| ConsentRules.RejectAllDenies | keksly.js:369-372 | Reject-all grants the required services. Every other configured id reads a falsy value. An id whose `required` is absent is dropped from the stored blob. |
| ConsentRules.NormalizeMembersGet | keksly.js:245 | Stringify keeps a defined member's value and drops an `undefined` one. |
| ConsentRules.HistoryEntry | keksly.js:212-218 | The entry carries the timestamp, the uid (`null` before one is known) and the consent state. `source` defaults to `'unknown'` and `action` to `'update'`. Keys are distinct. |
| ConsentRules.HistoryRoundTrip | keksly.js:199-225 | After an append whose write is admitted, loading the history gives back the whole list, each entry as stringify keeps it. |
| ConsentRules.UidSticks | keksly.js:85-101 | Once a non-empty id is stored, later calls reuse it and write nothing. |
| ConsentRules.ResetThenLoad | keksly.js:145-151 | After a reset and the page reload, the next load shows the banner with the required defaults, the reloaded empty history stays empty, and a new id is generated. |
| ConsentRules.UpdateRecord | keksly.js:264-269 | The data-layer record has event `keksly_consent_update`, the consent state, the history and the uid. |
| ConsentMode.HasConsentIff | keksly.js:273-279 | A consent type is granted iff some service has an array `category` holding it and a truthy consent entry. |
| ConsentMode.StatusGet | keksly.js:281-286 | Each of the four types reads its own flag in `gcmStatus`. |
| ConsentMode.StatusKeys | keksly.js:281-286 | `gcmStatus` holds `ad_storage`, `analytics_storage`, `ad_user_data` and `ad_personalization`, once each and in that order. |
| ConsentMode.StatusReads | keksly.js:272-293 | Each type reads `'granted'` iff some service vouches for it, and `'denied'` otherwise. |
| ConsentMode.GrantedMonotone | keksly.js:273-279 | Granting more services never withdraws a granted flag. |
| ScriptGate.AttrOf | keksly.js:299 | `getAttribute` finds a value iff the element has the attribute, and that value is the value of the first attribute with the name. |
| ScriptGate.ActivatedShape | keksly.js:301-313 | The replacement has type `text/javascript` and no `data-service`. It has the same `src`, or (without `src`) the inline body. Every other attribute reads as before. It no longer matches the selector. |
| ScriptGate.GateChanges | keksly.js:297-300 | Only `text/plain` scripts with `data-service` whose service is consented change. Every other element is untouched. |
| ScriptGate.GateIdempotent | keksly.js:296-316 | A second pass with the same state changes no element. |
| ScriptGate.GateAllAt | keksly.js:297-298 | Every element of the document is handled on its own. |
| ScriptGate.GateAllIdempotent | keksly.js:296-316 | A second pass with the same state changes nothing in the document. |
| Uuid.SlotValue | keksly.js:79-80 | A slot's value is a nibble. A `y` slot takes a variant nibble, `8` to `b`, that keeps the low two bits of `r`, as `(r & 3) \| 8` does. |
| Uuid.Fill | keksly.js:78-82 | The fill keeps the template's length. |
| Uuid.FillAt | keksly.js:78-82 | Each slot shows the hex digit of its own nibble: the slot at position `i` takes nibble number `Slots(tpl[..i])`, so the slots consume the nibbles left to right. Every other character is copied. |
| Uuid.TemplateShape | keksly.js:77 | The template has 36 characters and 31 slots, laid out character by character. |
| Uuid.FallbackLayout | keksly.js:75-83 | The fallback id has the version-4 layout: 36 characters, hyphens at 8, 13, 18 and 23, `4` at 14, one of `8 9 a b` at 19, and lower-case hex digits elsewhere. |
| Engine.Storage.SetItem | keksly.js:184 | `setItem` changes the store as `Write` says. |
| Engine.Storage.RemoveItem | keksly.js:181 | `removeItem` drops the key. |
| Engine.Keksly.constructor | keksly.js:56-61 | Empty consent and history, `lastHistoryEntry` null, no banner flag, no user id. |
| Engine.Keksly.BuildState | keksly.js:162-167 | The `forEach` loop builds `Assigned(services, value)`. |
| Engine.Keksly.ForceRequiredOn | keksly.js:190-192 | The `forEach` loop computes `ForceRequired`. |
| Engine.Keksly.GenerateUid | keksly.js:85-101 | The user id and the store become `UidAfter` and `UidStore`, and nothing else changes. |
| Engine.Keksly.LoadConsent | keksly.js:156-197 | State, store and banner flag as `LoadSpec` says. The method fails exactly where `LoadSpec` gives `LoadFailed`, leaving the state and the store unchanged. On success the required services are granted. |
| Engine.Keksly.LoadHistory | keksly.js:199-209 | The history becomes `LoadedHistory` and `lastHistoryEntry` its last entry, or null. |
| Engine.Keksly.AppendHistory | keksly.js:211-226 | The history grows by exactly the new entry, earlier entries are unchanged, the entry becomes `lastHistoryEntry`, and the whole list is written. |
| Engine.Keksly.PersistConsent | keksly.js:243-248 | The blob is written, and the marker only if the blob write succeeded. |
| Engine.Keksly.Commit | keksly.js:238-249 | The merged and forced state, the two writes, and the history entry. |
| Engine.Keksly.SaveConsent | keksly.js:238-254 | `Commit` then `ApplyConsent`: the required services are granted and keys are distinct afterwards. |
| Engine.Keksly.PushDataLayer | keksly.js:262-270 | `dataLayer` is created when absent, never replaced, and grows by one record. |
| Engine.Keksly.UpdateGcm | keksly.js:272-294 | `dataLayer` grows by one `gtag('consent', 'update', gcmStatus)` call. |
| Engine.Keksly.HandleScriptBlocking | keksly.js:296-316 | The document array becomes `GateAll` of its old contents under the consent state, in place. |
| Engine.Keksly.ApplyConsent | keksly.js:256-260 | One record, then one consent-mode command iff `gcm.enabled`. Script blocking runs unless reading `gcm.enabled` throws. |
| Engine.Keksly.AcceptAll | keksly.js:358-365 | Saves `AcceptAllState` with meta `banner`/`accept_all`, after which every configured id reads `true`. The full post-state of `saveConsent` follows: store, history, last entry, data layer and document, with `Valid()` kept and the user id and banner flag unchanged. |
| Engine.Keksly.RejectAll | keksly.js:367-374 | Saves `RejectAllState` with meta `banner`/`reject_all`. The full post-state of `saveConsent` follows, as for `AcceptAll`. |
| Engine.Keksly.Run | keksly.js:131-140 | Shows the banner iff the load succeeds and flags it, with the data layer and document untouched. Otherwise it applies consent to the data layer and the document. After a successful load the state, store, history and last entry are those `LoadSpec` and `LoadedHistory` give. A failed load stops the run and leaves state, store, history, data layer and document unchanged. |
| Engine.Keksly.Reset | keksly.js:145-151 | Removes `keksly_consent`, `keksly_version`, `keksly_consent_history` and `keksly_uid`. |

## Left out

- Rendering and UI wiring are not modelled: `injectStyles`, `showBanner`'s markup, `showSettingsModal`, `renderHistoryList`, `hideBanner` and `hideSettingsModal`, and the event listeners. The settings "save" reads checkboxes into a new state and calls `saveConsent`; `Engine.Keksly.SaveConsent` covers it for any new state.
- `init`'s `fetch` of the configuration and its promise chain are not modelled, nor is the `DOMContentLoaded` hookup. `Configuration.Resolve` models only the result: the merge, or the defaults when there is no override or the fetch fails.
- The clock, `Math.random`, `crypto.randomUUID` and the page's elements are inputs.
- `location.reload` after a reset is not modelled, nor are `console.warn`/`console.error`, the `window.Keksly` object and `getUid`.
- `getItem` throwing when storage is disabled is not modelled. Only writes may fail.
- `deepMerge`'s aliasing is not modelled: it mutates both the override and the defaults object shared with `config`. Only the resulting value is modelled.
- `DeepMerge.Merge`: `Mergeable` excludes three shapes:
  - an override container that holds a container, over a primitive base value: `key in target` throws a `TypeError`;
  - an override container over a non-empty string: `Object.assign` copies the string's characters into the override as index keys, or throws when the override writes an index the string has;
  - an array over an object, or an object over an array: the source copies index keys into the object, or named keys onto the array, and the value model has no array with named keys.
- `Configuration.Resolve`: a string or an array as the whole override is excluded, because its index keys would be copied onto the configuration object. A `TypeError` from a nested merge of an inline override is not caught and stops `init`; this is not modelled.
- `JsValue.Put`: JavaScript lists integer-like keys (array indices such as `"1"`) first, in ascending order, while the model appends them in insertion order. Lookups are unaffected. The member order of the stored blob's text and of data-layer objects differs when a service id is integer-like.
- `JsValue.Assign`: the same key-order difference. The clause that the base's keys come first is false in JavaScript when the added keys include an integer-like key.
- `DeepMerge.MergeObject`: the same key-order difference for integer-like keys.
- `Engine.Keksly.LoadConsent`: under a matching version, the source does not throw for a stored non-object blob when no service is required, and it keeps an array blob as the state. The model fails the load in both cases, as the `ConsentRules.LoadSpec` line below says.
- In-memory aliasing is not modelled. Each pushed data-layer record shares the live `consentHistory` array, so an older record's `consent_history_entry` shows later entries too. The model stores values as they were at the push.
- Property lookups see only own keys. Prototype keys such as `__proto__` or `toString` as service ids, and `key in target` finding inherited keys, are not modelled.
- Numbers are integers:
  - `Number` of a string with a fraction, an exponent or hex digits, or of `Infinity`, `+Infinity` or `-Infinity`, reads as `NaN`.
  - `JSON.parse` of a fraction or an exponent is `Malformed`.
  - `\u` surrogate pairs are not decoded.
  - Precision loss beyond 2^53 is not modelled.
- `ConsentRules.LoadSpec`: a stored blob that parses to a non-object under a matching version is a failed load.
  - In the source it throws only when some service is required.
  - It keeps an array blob as the state.
- `ConsentRules.LoadedHistory`: a stored history that parses to a truthy non-array is read as `[]`. The source keeps it, and the next `appendHistory` throws.
- `ScriptGate.Gate`: several DOM details are not modelled:
  - `script.src` is copied unresolved, which agrees with the final attribute;
  - the selector's attribute values are matched case-sensitively;
  - script execution;
  - the document is a flat array, not a tree.
- `Engine.Keksly.Run`: the banner's display and `injectStyles` are left out, and `completed` is reported as true on the banner branch.
