# Duration display configuration

A model of the `duration` abstract type's display configuration in the Mathesar
table editor. The configuration has three parts:

- a declarative form schema. It has one `custom` variable, `durationConfig`, whose
  default is `{max: "m", min: "s"}`. Its layout is a vertical container holding one
  static element, which binds that variable to the `duration-config-menu` widget;
- `determineDisplayOptions`, which turns form values into the display options a
  column persists. It spreads the `durationConfig` record and then forces
  `show_units` to `false`;
- `constructDisplayFormValuesFromDisplayOptions`, which turns the persisted options
  (possibly `null`) back into form values. `max` and `min` each fall back to their
  default with `??`, one independently of the other.

The registry entry `durationType` bundles these with the icon `:` and the
`string` cell type.

Files:

- `wrappers.dfy`: `Option`. `None` stands for JavaScript `undefined` (an absent property)
  and for a `null` column option.
- `js_value.dfy`: JSON-like values and the JavaScript operators the source uses:
  optional member access `o?.k`, nullish coalescing `??` and object spread `{...x}`.
  Spreading a string yields one property per index, keyed by the index's decimal
  numeral. The numerals are proved injective, so each index gets its own key.
- `form_schema.dfy`: variables, the layout tree, its static leaves in render order,
  and the well-formedness condition that every leaf references a declared variable.
  The leaves are proved to be exactly the static elements occurring anywhere in the
  tree, with earlier elements' leaves first.
- `duration.dfy`: the constants, the schema, both transforms, the round trip, the
  registry entry, and the lemmas about them. The contract that every abstract type's
  entry must meet is stated as `MeetsContract`: a well-formed form, form values that
  hold exactly the declared variables, absent options loading each variable's declared
  default, and an idempotent round trip.

## Model

| member | source | states |
|---|---|---|
| `JsValue.Coalesce` | mathesar_ui/src/stores/abstract-types/type-configs/duration.ts:57-58 | `x ?? d` keeps any value that is neither undefined nor null, including `""` and `false`, and otherwise yields `d`; the result is never null when `d` is not |
| `JsValue.OptionalMember` | mathesar_ui/src/stores/abstract-types/type-configs/duration.ts:57-58 | `o?.key` is undefined when `o` is null or lacks `key`, and otherwise the stored value, which may itself be `null` |
| `JsValue.Member` | mathesar_ui/src/stores/abstract-types/type-configs/duration.ts:45 | `v.key` on a record is undefined exactly when `key` is missing, else the stored value; it agrees with `?.` on a non-null record |
| `JsValue.Spread` | mathesar_ui/src/stores/abstract-types/type-configs/duration.ts:45 | `{...x}` copies an object's own properties exactly; a string gives one property per character, `|r| == |s|`, keyed by the index numerals and each holding its one-character string; anything else gives the empty record |
| `JsValue.StringProperties` | mathesar_ui/src/stores/abstract-types/type-configs/duration.ts:45 | spreading a string maps each index's key to that one-character string, and its keys are exactly the index keys |
| `JsValue.StringPropertiesCount` | mathesar_ui/src/stores/abstract-types/type-configs/duration.ts:45 | a spread string has exactly as many properties as the string has characters |
| `JsValue.IndexKey` | mathesar_ui/src/stores/abstract-types/type-configs/duration.ts:45 | the property key of a string index is a non-empty string of decimal digits, one digit long exactly for indices below 10, ending in the index's last digit |
| `JsValue.IndexKeyInjective` | mathesar_ui/src/stores/abstract-types/type-configs/duration.ts:45 | two indices with the same property key are equal, so a spread string keeps every character |
| `JsValue.IndexKeysCount` | mathesar_ui/src/stores/abstract-types/type-configs/duration.ts:45 | the indices below `n` have `n` distinct property keys |
| `FormSchema.Leaves` | mathesar_ui/src/stores/abstract-types/type-configs/duration.ts:29-38 | the leaves of a layout are all static elements; a static element is its own only leaf; that no static element is missed is `FormSchema.LeavesComplete` |
| `FormSchema.LeavesOf` | mathesar_ui/src/stores/abstract-types/type-configs/duration.ts:31-37 | the leaves of a container's element list are all static elements; completeness and order are `FormSchema.LeavesOfComplete` and `FormSchema.LeavesOfAppend` |
| `FormSchema.LeavesComplete` | mathesar_ui/src/stores/abstract-types/type-configs/duration.ts:29-38 | a static element is a leaf of a layout exactly when it occurs in that layout at some depth |
| `FormSchema.LeavesOfComplete` | mathesar_ui/src/stores/abstract-types/type-configs/duration.ts:31-37 | a static element is a leaf of an element list exactly when it occurs in one of the elements |
| `FormSchema.LeavesOfAppend` | mathesar_ui/src/stores/abstract-types/type-configs/duration.ts:31-37 | render order is kept: the leaves of a concatenation are the leaves of the first part followed by those of the second |
| `FormSchema.WellFormedMeaning` | mathesar_ui/src/stores/abstract-types/type-configs/duration.ts:29-38 | a form is well formed exactly when every static element occurring in its layout names a declared variable |
| `DurationConfig.DisplayFormWellFormed` | mathesar_ui/src/stores/abstract-types/type-configs/duration.ts:12-39 | the schema's only leaf binds `durationConfig` to `duration-config-menu`, and every leaf references a declared variable |
| `DurationConfig.SchemaDefaultMatchesConstruct` | mathesar_ui/src/stores/abstract-types/type-configs/duration.ts:21-60 | the `custom` variable's declared default equals the `durationConfig` the transform builds for a never-configured column |
| `DurationConfig.ConstructConformsToSchema` | mathesar_ui/src/stores/abstract-types/type-configs/duration.ts:51-62 | for any options, the form values hold exactly the variables the schema declares |
| `DurationConfig.DetermineDisplayOptions` | mathesar_ui/src/stores/abstract-types/type-configs/duration.ts:41-49 | the result has `show_units` equal to `false`; its keys are exactly the spread `durationConfig`'s keys plus `show_units`; every other key keeps its value |
| `DurationConfig.ConstructDisplayFormValuesFromDisplayOptions` | mathesar_ui/src/stores/abstract-types/type-configs/duration.ts:51-62 | the form values hold only `durationConfig`, a record with exactly `max` and `min`; each is the option's value when that is set (not absent, not null), else `"m"` or `"s"` respectively |
| `DurationConfig.ConstructFromAbsent` | mathesar_ui/src/stores/abstract-types/type-configs/duration.ts:51-62 | null options give `durationConfig` = `{max: "m", min: "s"}` |
| `DurationConfig.ConstructDefaultsIndependently` | mathesar_ui/src/stores/abstract-types/type-configs/duration.ts:57-58 | options that set only `max` keep it and default `min` to `"s"`; options that set only `min` keep it and default `max` to `"m"` |
| `DurationConfig.ConstructNullAndEmpty` | mathesar_ui/src/stores/abstract-types/type-configs/duration.ts:57-58 | a stored `null` falls back to the default, while a stored empty string is kept |
| `DurationConfig.ConstructFieldsIndependent` | mathesar_ui/src/stores/abstract-types/type-configs/duration.ts:57-58 | the form's `max` depends only on the options' `max`, and `min` only on `min` |
| `DurationConfig.DetermineOverridesShowUnits` | mathesar_ui/src/stores/abstract-types/type-configs/duration.ts:44-47 | for a record config the result is the config with `show_units` set to `false`; a config holding `show_units: true` still yields `false` |
| `DurationConfig.DetermineWithoutConfig` | mathesar_ui/src/stores/abstract-types/type-configs/duration.ts:44-47 | form values lacking `durationConfig`, or holding null there, persist as `{show_units: false}` and nothing else |
| `DurationConfig.RoundTripFromAbsent` | mathesar_ui/src/stores/abstract-types/type-configs/duration.ts:41-62 | loading null options and persisting the form gives `{max: "m", min: "s", show_units: false}` |
| `DurationConfig.ConstructAfterRoundTrip` | mathesar_ui/src/stores/abstract-types/type-configs/duration.ts:41-62 | loading the persisted result of a round trip gives the same form values as loading the original options |
| `DurationConfig.RoundTripIdempotent` | mathesar_ui/src/stores/abstract-types/type-configs/duration.ts:41-62 | a second load-then-persist round trip changes nothing, for every input, absent and partial ones included |
| `DurationConfig.DurationTypeMeetsContract` | mathesar_ui/src/stores/abstract-types/type-configs/duration.ts:64-74 | the entry has icon `:` and cell type `string`; its display configuration's form is the duration schema; the bundle meets the contract every abstract type's entry must meet: a well-formed form, loaded form values holding exactly the declared variables, absent options loading the declared defaults, and an idempotent round trip |

## Left out

- The imported types `FormValues`, `Column`, `DurationDisplayOptions`, `AbstractTypeConfigForm` and `AbstractTypeConfiguration` are not part of this model. They are replaced by minimal records: `FormValues` is a record of values, and display options are an optional record. `VariableSpec` has only the `custom` kind, the one this schema uses.
- The `as` casts are unchecked at runtime. The model therefore reads `max` and `min` as whatever values the record holds. Any value other than null is kept, as `??` keeps it, whether or not it is a unit string. The unit vocabulary is not enforced, because the code does not enforce it.
- The form renderer that walks the layout and the `duration-config-menu` widget are not part of this model. Any min ≤ max constraint between the units belongs to that widget, and nothing here asserts it.
- Reading and writing a column's display options is I/O outside this file and is not modelled.
- A property present with the value `undefined` is treated like an absent property. JSON-persisted options cannot hold it.
- JsValue.Value has no numbers or arrays. Spreading an array, which yields index keys, is therefore not modelled. Spreading a number yields nothing, just as spreading a boolean does.
- JsValue.StringProperties treats a string as a sequence of characters. JavaScript indexes a string by UTF-16 code unit, so a character outside the Basic Multilingual Plane would give two index keys there and one here.
- DurationConfig.DurationTypeMeetsContract: `getDisplayConfig` builds a fresh object on each call. The model returns equal values, so object identity is not modelled.
