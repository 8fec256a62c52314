# Form builder core, modelled in Dafny

This project models the form-definition core of a Nuxt form builder. A form is a list of
components (text inputs, selects, checkboxes, …), each with a name, an optional grid
placement and optional validation rules. The model covers four pieces of that core:

- **Rule translator.** `generateValidationRules` turns a flat validation record into the rule
  record of the validation library. A truthy `custom` rule short-circuits it. Module
  `ValidationRules`, with the `isXComponent` guards.
- **Rendering helpers.** `getComponentGridStyle` writes the CSS grid-line shorthands
  (`N / span M`, `span M`, following section 8.4 of CSS Grid Layout Module Level 1).
  `getComponentProps` shapes the props a widget receives. Module `FormBuilderUtils`, with
  the shorthand grammar in `GridLines` and decimal rendering in `Text`.
- **Class-based builder.** `FormComponent` wraps one flat configuration and gives it an id.
  `FormBuilder` keeps an insertion-ordered map from id to component. It refuses invalid
  components and names already taken by another id, and reports on the whole form.
  Module `Classes`, over the insertion-ordered map of `OrderedMaps`.
- **Composable builder.** `useFormBuilder` keeps nested `{settings, props}` components in a
  map keyed by name. Its validation is richer, and it loads a schema best-effort,
  collecting one error per rejected component. Module `UseFormBuilder`.

JavaScript values are modelled by `JsValues.Value`, and truthiness is written out where
the source tests it. Numbers are integers. A thrown error becomes a `Result` or an
`Option` error. A JavaScript `Map` becomes an `OrderedMap`: a key sequence in insertion
order plus a table. The JSON parser, the clock and the random source become parameters.

The imperative parts keep their shape:
- `FormComponent`, `FormBuilder` and the composable's state are classes whose methods
  assign their fields.
- The duplicate-name scan, the `validate` fold, the constructor's `forEach` and
  `parseSchema`'s `forEach` are loops. Each loop is proved against a specification
  function: `TryAdd`, `InvalidErrors`, `AddAll` and `Load`.

The two shapes of component stay separate: the flat `FormTypes.ComponentConfig` and the
nested `UseFormBuilder.NestedComponent`.

## Model

| member | source | states |
|---|---|---|
| ValidationRules.GenerateValidationRules | utils/validation-rules.ts:18-39 | absent rules give `undefined`; a truthy `custom` is returned alone; otherwise the record holds exactly the table's entries for the fields that are set |
| ValidationRules.RecordAfterAgrees | utils/validation-rules.ts:23-35 | after the first n conditional assignments the record holds exactly the table's entries for those n lines |
| ValidationRules.TranslationTable | utils/validation-rules.ts:25-35 | key by key: `min`/`max`/`minLength`/`maxLength` map to `min_value`/`max_value`/`min`/`max` whenever defined (0 included); the six flags appear, as `true`, only when true; a non-empty `pattern` is copied under `regex` |
| ValidationRules.KeyNamesAreTheLibrarys | utils/validation-rules.ts:23-38 | every output key is one of the eleven library names, never `message` |
| ValidationRules.KeyNameInjective | utils/validation-rules.ts:25-35 | distinct rules are written under distinct keys |
| ValidationRules.GivenRulesAreTruthy | utils/validation-rules.ts:21-38 | whenever a validation object is given the result is truthy |
| ValidationRules.EmptyRuleGivesEmptyRecord | utils/validation-rules.ts:21-38 | `{}` gives an empty record, not `undefined` |
| ValidationRules.RequiredMinLengthEmailExample | utils/validation-rules.ts:25-38 | `{required, minLength: 3, email}` gives exactly `{required: true, min: 3, email: true}` |
| ValidationRules.GuardMatchesLiteral | utils/validation-rules.ts:41-83 | each guard holds iff the configuration's `type` literal is the guard's literal |
| FormTypes.KindNameInjective | types/form-builder.ts:13-38 | distinct component kinds have distinct `type` literals |
| GridLines.ParseRender | utils/form-builder.ts:9-22 | every `N / span M` or `span M` text reads back as the placement it was written for |
| GridLines.RenderInjective | utils/form-builder.ts:9-22 | different placements are written as different texts |
| GridLines.ParseRepeatTemplate | composables/useFormBuilder.ts:136 | `repeat(n, 1fr)` reads back as n |
| Text.ReadIntOfIntToString | utils/form-builder.ts:10 | an interpolated integer followed by a non-digit reads back as that integer |
| FormBuilderUtils.PlacementStyle | utils/form-builder.ts:6-22 | the column spans `col` or the form width and starts at `colStart` iff it is truthy; a row placement appears iff `rowStart` or `row` is truthy, spans `row` or 1 and starts at `rowStart` when set; nothing is clamped |
| FormBuilderUtils.DescribesDetermines | utils/form-builder.ts:4-24 | a layout has exactly one style with only `gridColumn` and `gridRow` |
| FormBuilderUtils.StyleReadsBack | utils/form-builder.ts:9-22 | each style text parses back to the placement its layout asks for |
| FormBuilderUtils.GetComponentGridStyle | utils/form-builder.ts:3-25 | the style of the component's grid (none: an empty one) in a form of the given width, 12 when none is given |
| FormBuilderUtils.NoGridSpansTheForm | utils/form-builder.ts:3-13 | a component without a grid gets exactly `{gridColumn: "span 12"}` |
| FormBuilderUtils.BaseProps | utils/form-builder.ts:28-33 | the copy keeps every widget prop, `name` and `id`, and drops the builder-only fields |
| FormBuilderUtils.BranchProps | utils/form-builder.ts:35-105 | each kind's branch writes its `type` and re-reads its own props |
| FormBuilderUtils.GetComponentProps | utils/form-builder.ts:27-106 | the props are exactly the widget props, `name`, `id`, the kind's `type` and its re-read props; widget props keep their values; a re-read prop the component does not set is `undefined` |
| FormBuilderUtils.PropsOmitBuilderFields | utils/form-builder.ts:28-33 | `validation`, `grid` and `defaultValue` are never props |
| FormBuilderUtils.PropsIgnoreBuilderFields | utils/form-builder.ts:28-33 | changing grid, validation or default value does not change the props |
| FormBuilderUtils.TypeOnlyForInputKinds | utils/form-builder.ts:35-105 | `type` is a prop iff the kind is text, number, date, time or file |
| Classes.MessageIdentifiesDuplicate | components/form-builder/classes.ts:100-113 | a validation failure's message never equals a duplicate's, and a duplicate's message determines the name it reports |
| Classes.GenerateId | components/form-builder/classes.ts:24-26 | a generated id starts with `component_` and is longer than it |
| Classes.GenerateIdInjective | components/form-builder/classes.ts:24-26 | different clock readings or random parts give different ids |
| Classes.WithId | components/form-builder/classes.ts:17-22 | a non-empty id is kept; a missing or empty one is replaced by a generated one; the result always has an id |
| Classes.ValidateConfig | components/form-builder/classes.ts:56-73 | exactly `[required]` for a missing or empty name, exactly `[format]` for a name outside the pattern, otherwise valid with no errors |
| Classes.ApplyPatch | components/form-builder/classes.ts:44-46 | for every field (type, name, id, grid, validation, default value, each prop) the update's value when it sets one, the old value otherwise |
| Classes.ApplyPatchIdempotent | components/form-builder/classes.ts:44-46 | applying an update twice is applying it once |
| Classes.MergeGrid | components/form-builder/classes.ts:48-50 | each of the four grid fields is the update's when set, the old grid's (none: unset) otherwise |
| Classes.MergeGridProperties | components/form-builder/classes.ts:48-50 | merging a layout twice changes nothing more; an empty layout keeps the old one |
| Classes.MergeValidation | components/form-builder/classes.ts:52-54 | each of the thirteen rule fields is the update's when set, the old rule's (none: unset) otherwise |
| Classes.MergeValidationProperties | components/form-builder/classes.ts:52-54 | merging rules twice changes nothing more; an empty rule keeps the old one |
| Classes.FormComponent.constructor | components/form-builder/classes.ts:17-22 | the stored copy is the configuration with its id kept or generated, and the id getter is never empty |
| Classes.FormComponent.Id | components/form-builder/classes.ts:28-30 | the configured id, or "" when there is none |
| Classes.FormComponent.Kind | components/form-builder/classes.ts:32-34 | the configuration's `type` |
| Classes.FormComponent.Name | components/form-builder/classes.ts:36-38 | the configured name, or "" when there is none |
| Classes.FormComponent.GetConfig | components/form-builder/classes.ts:40-42 | a copy equal to the configuration, agreeing with the id, name and type getters |
| Classes.FormComponent.Validate | components/form-builder/classes.ts:56-73 | the report of `ValidateConfig` (exact error lists) for the stored configuration; valid exactly when the name getter gives a well-formed name |
| Classes.FormComponent.UpdateConfig | components/form-builder/classes.ts:44-46 | the configuration becomes the shallow merge of the update |
| Classes.FormComponent.SetGridLayout | components/form-builder/classes.ts:48-50 | only the grid changes, to the merge of old and new |
| Classes.FormComponent.SetValidation | components/form-builder/classes.ts:52-54 | only the validation changes, to the merge of old and new |
| Classes.InitialOptions | components/form-builder/classes.ts:80-91 | defaults: 12 columns when falsy, gap `1rem` when falsy, the Submit button, blur and change on, mount and input off; flags default with `??` |
| Classes.UpdateOptions | components/form-builder/classes.ts:131-133 | each of the nine settings is the update's when set, the old one otherwise |
| Classes.OptionsRoundTrip | components/form-builder/classes.ts:80-91 | rebuilding from exported settings gives them back except the form's name |
| Classes.UpdateWithExport | components/form-builder/classes.ts:131-133 | updating with exported settings reproduces them |
| Classes.TryAdd | components/form-builder/classes.ts:100-116 | fails iff the component is invalid or another id holds its name, with the exact error; otherwise stores it under its id and keeps every other entry; keeps the table well formed (ids are keys, components valid, names unique across ids) |
| Classes.AddStores | components/form-builder/classes.ts:111-115 | a valid component without a clash is stored under its id |
| Classes.DeletePreservesWellFormed | components/form-builder/classes.ts:119-125 | removing an entry keeps the table well formed |
| Classes.AddAll | components/form-builder/classes.ts:95-97 | a successful construction leaves a valid table that keeps every id it started from as a key |
| Classes.AddAllStoresLast | components/form-builder/classes.ts:95-115 | after a successful construction every supplied id is a key, and under it is stored the last configuration given that id, since `Map.set` replaces an entry with the same id |
| Classes.AddAllKeepsUnsupplied | components/form-builder/classes.ts:95-115 | a starting entry whose id no configuration is added under is still stored, unchanged |
| Classes.AddAllStep | components/form-builder/classes.ts:95-97 | the constructor adds the components in order and stops at the first failure |
| Classes.AddAllWellFormed | components/form-builder/classes.ts:95-97 | a successful construction leaves a well-formed table |
| Classes.RebuildRoundTrip | components/form-builder/classes.ts:166-173 | rebuilding from the exported components gives back the same table in the same order, whatever the clock says |
| Classes.Report | components/form-builder/classes.ts:146-164 | valid iff no errors are reported; an empty form reports `form` |
| Classes.InvalidErrorsStep | components/form-builder/classes.ts:153-158 | visiting a component adds its errors under its id iff it is invalid |
| Classes.ReportOfWellFormed | components/form-builder/classes.ts:146-164 | a form built by `addComponent` is valid iff it holds a component |
| Classes.FormBuilder.constructor | components/form-builder/classes.ts:80-93 | the defaulted settings and an empty table |
| Classes.FormBuilder.Create | components/form-builder/classes.ts:80-98 | construction adds the components in order and fails with the first failing component's error |
| Classes.FormBuilder.FromJSON | components/form-builder/classes.ts:166-169 | a text that does not parse fails with the parser's message; otherwise as the constructor: the first failing component's message, or the built table with the defaulted settings |
| Classes.FormBuilder.AddComponent | components/form-builder/classes.ts:100-117 | the table becomes `TryAdd`'s result, or stays unchanged on failure |
| Classes.FormBuilder.RemoveComponent | components/form-builder/classes.ts:119-125 | returns true iff the id was present; the others keep their order |
| Classes.FormBuilder.GetComponent | components/form-builder/classes.ts:127-129 | exactly the stored entry under that id, if any; it carries that id and is valid |
| Classes.FormBuilder.UpdateFormConfig | components/form-builder/classes.ts:131-133 | merges the settings and leaves the components alone |
| Classes.FormBuilder.GetFormConfig | components/form-builder/classes.ts:139-144 | the settings and the components in insertion order |
| Classes.FormBuilder.Validate | components/form-builder/classes.ts:146-164 | the form's report |
| Classes.FormBuilder.CollectInvalid | components/form-builder/classes.ts:153-158 | the error lists of exactly the invalid components |
| OrderedMaps.OrderedMap.Get | components/form-builder/classes.ts:128 | `Map.get`: the stored value when the key is present, nothing otherwise |
| OrderedMaps.OrderedMap.Values | components/form-builder/classes.ts:136-142 | `Array.from(map.values())`: one value per key, in insertion order, every stored value included |
| OrderedMaps.OrderedMap.Set | components/form-builder/classes.ts:115 | a `Map.set` keeps a present key's position and appends a new one |
| OrderedMaps.OrderedMap.Delete | components/form-builder/classes.ts:120 | a `Map.delete` removes only that key and keeps the order of the rest |
| OrderedMaps.SetExistingKeepsPosition | components/form-builder/classes.ts:115 | re-adding an id replaces its entry in place |
| OrderedMaps.SetNewAppends | components/form-builder/classes.ts:115 | a new id goes last |
| UseFormBuilder.ValidateComponent | composables/useFormBuilder.ts:107-131 | valid iff no error is reported iff the name is well formed, the label is set and a select or radio has options |
| UseFormBuilder.ValidateComponentReports | composables/useFormBuilder.ts:110-128 | each of the four errors is reported exactly when its problem is present, so several can be reported at once |
| UseFormBuilder.NameChecksAgree | composables/useFormBuilder.ts:110-116 | the name errors are those of `FormComponent.validate` for the same name |
| UseFormBuilder.TryInsert | composables/useFormBuilder.ts:92-105 | fails iff the component is invalid or its name is already a key, with the exact message; otherwise inserts it last under its name; names stay keys of valid components |
| UseFormBuilder.Overlay | composables/useFormBuilder.ts:65 | each of the six settings is the schema's when set, the default otherwise; no settings give the defaults |
| UseFormBuilder.SettingsRoundTrip | composables/useFormBuilder.ts:10-17 | loading written-out settings gives them back; empty settings give the defaults |
| UseFormBuilder.Load | composables/useFormBuilder.ts:67-76 | the loaded table holds only valid components under their own names |
| UseFormBuilder.LoadNames | composables/useFormBuilder.ts:68-76 | the stored names are exactly the names of the valid entries |
| UseFormBuilder.LoadAccountsForEveryEntry | composables/useFormBuilder.ts:68-76 | stored components plus recorded errors number the entries that are not malformed; malformed ones are skipped silently |
| UseFormBuilder.LoadKeepsFirst | composables/useFormBuilder.ts:68-76 | the first valid entry under a name is the one stored |
| UseFormBuilder.LoadCleanIff | composables/useFormBuilder.ts:68-85 | no error is recorded iff every well-formed entry is valid with a name no earlier valid entry has |
| UseFormBuilder.CollectByName | composables/useFormBuilder.ts:26-47 | with distinct names, the fold holds exactly one entry per component that writes one |
| UseFormBuilder.InitialValuesOfKeyed | composables/useFormBuilder.ts:26-34 | name to initial value for exactly the components whose initial value is defined |
| UseFormBuilder.ValidationSchemaOfKeyed | composables/useFormBuilder.ts:36-47 | name to translated rules for exactly the components with a validation object |
| UseFormBuilder.GetComponentProps | composables/useFormBuilder.ts:167-177 | `name`, then the props overriding it, then `label` forced for checkbox and switch |
| UseFormBuilder.GridStylesAgree | composables/useFormBuilder.ts:141-165 | with a non-zero width the placement is the one the utility gives |
| UseFormBuilder.FormBuilderState.constructor | composables/useFormBuilder.ts:20-24 | default settings, no components, no errors |
| UseFormBuilder.FormBuilderState.AddComponent | composables/useFormBuilder.ts:92-105 | the map becomes `TryInsert`'s result, or stays unchanged with the thrown message |
| UseFormBuilder.FormBuilderState.ParseSchema | composables/useFormBuilder.ts:50-90 | empty input resets everything and succeeds; a syntax error only sets `parseError`; otherwise the settings are reloaded, the map is rebuilt best-effort, and the result is true iff no component error was recorded, whose summary then goes to `parseError` |
| UseFormBuilder.FormBuilderState.InitialValues | composables/useFormBuilder.ts:26-34 | name to initial value for exactly the components that define one |
| UseFormBuilder.FormBuilderState.ValidationSchema | composables/useFormBuilder.ts:36-47 | name to rules for exactly the components with validation |
| UseFormBuilder.FormBuilderState.GetFormGridStyle | composables/useFormBuilder.ts:133-139 | `repeat(cols, 1fr)` with cols the given width, or the settings' when falsy; gap `1rem` when empty |
| UseFormBuilder.FormBuilderState.GetComponentGridStyle | composables/useFormBuilder.ts:141-165 | the shared placement rule in a form of the given width, or the settings' when falsy |

## Left out

- JSON text: `JSON.parse` is a parameter, its outcome given as a value, and `exportJSON`'s `JSON.stringify` is not modelled. `GetFormConfig` is the exported content.
- Numbers are integers: floats, `NaN` and numeric strings where the source expects a number are not modelled.
- Values the source reads with a type it does not check are assumed to have that type: a string name, an object for `settings`, a list for `items`.
- A key present with the value `undefined` in an update is treated as absent.
- The builders store component snapshots. Aliasing of live `FormComponent` objects returned by `getComponent`, and of the shared `defaultSettings` object, is not modelled.
- Vue reactivity (`ref`, `computed`) becomes plain fields and functions.
- The order of keys inside a record (props, rule records, error records) is not modelled; records are maps. The order of components is modelled.
- `console.log` in the class builder's error constructor and the unused `_errors` field are left out.
- `custom` rule expressions and `pattern` regular expressions are passed through, never evaluated.
- `pattern` is modelled as the string a JSON schema carries, so an empty pattern is dropped; a `RegExp` object, always truthy, is not modelled.
- Id generation: the clock reading and the up to seven random base-36 characters are a parameter (`IdSeed`).
- The `password` kind of the JSON Schema constant is left out: the model's kinds are the eleven of `ComponentType`.
- Component and form settings other than the ones the code reads are carried along unread (`attrs`, `others`).
- `parseSchema` when the JSON does not parse: the existing components and settings are kept, as the code does; only `parseError` changes. The document `null` is modelled too: the map is cleared before reading its `settings` fails.
- Classes.InitialOptions: the form's `name` is not carried over by the constructor, as the code does, so a rebuilt form loses its name (`OptionsRoundTrip` states the loss).
- UseFormBuilder.ValidateComponent: `ValidateComponentReports` states which errors are reported, not their order. The order (name, label, options) is only in the function's definition.
- UseFormBuilder.Load: the lemmas state when and how many errors are recorded. The text of each `Component <index>: …` line is only in the definition (`ComponentError`).
