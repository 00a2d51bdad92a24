# Shipment record of the freight-carrier client

This project models the `Shipment` record of the carrier client in Dafny:

- its 41 public properties, in declaration order, with their defaults;
- the `fromArray` constructor;
- the rule table returned by `rules()`;
- the key sets of the option lists;
- the positional encoder `toApiData`, as written and corrected.

As written, `toApiData` fails on every record: the 'lists' key of the rule table reaches `array_merge` (see "## Findings"). `ApiData.ToApiData` is the corrected encoder, which drops the keys before the merge. It sends one token per property. A token is `-N` or `-A` followed by the property's string form. `-N` marks a property named by an `integer` or `number` rule.

No code in the repository evaluates the rule table. Beside the table, the model adds a checker that interprets only what the table itself states:

- the required set;
- the maximum string lengths;
- the `DD/DD/DDDD` and `DD:DD` shapes of the match rules;
- the `when` condition on consigneeDate.

Modules:

- `PhpValues` (`php_values.dfy`):
  - property values (`null`, string, integer);
  - PHP's `(string)` cast, proved to round-trip for integers;
  - PHP truthiness.
- `ShipmentRecord` (`shipment_record.dfy`):
  - the property names as an enumeration, with declaration order;
  - the defaults;
  - a record as the ordered list of (name, value) that `get_object_vars` yields;
  - read and write of one property;
  - `fromArray` as a loop over (name, value) pairs.
- `RuleCatalog` (`rule_catalog.dfy`):
  - `rules()` as data;
  - the derivation of the number attributes;
  - the option-list key tables.
- `ApiData` (`api_data.dfy`):
  - `toApiData`, with its layout, prefix, locality and decoding properties;
  - the as-written encoder of the finding below.
- `Validation` (`validation.dfy`): the checker over the rule table, and its properties on required properties, lengths, shapes and the default record.

Modelling choices:

- **Property names are an enumeration.** `fromArray` accepts only declared names, so the key type itself states that precondition.
- **`fromArray` is a method.** It starts from the default record and builds the result by a `while` loop. Its postcondition ties the loop to the specification function `Built`, so each property takes the value the last pair naming it assigns, or keeps its default.
- **How the checker handles empty values and strings:**
  - a required rule fails on `null` and `''` only;
  - string and match rules leave `null` and `''` alone;
  - a string rule measures strings only, and a length counts characters (code points), not bytes: a Hebrew letter is one character, although UTF-8 spends two bytes on it;
  - a match rule tests the `(string)` form of the value.
- **The token prefix is two characters.** The code writes `-N` / `-A` (Shipment.php:171), and the model does the same.

## Model

| member | source | states |
|---|---|---|
| PhpValues.NatToDecimal | Shipment.php:171 | the decimal form of a natural number is a non-empty digit string, with a leading zero only for 0 |
| PhpValues.DecimalRoundTrip | Shipment.php:171 | reading the decimal digits of `n` back gives `n` |
| PhpValues.IntStringRoundTrip | Shipment.php:171 | the `(string)` form of any integer, negative ones included, parses back to that integer |
| PhpValues.ToPhpString | Shipment.php:171 | `(string)` gives `''` for null, a string unchanged, and an integer's decimal form, which parses back to the integer |
| PhpValues.IntToString | Shipment.php:171 | the `(string)` form of an integer; pinned by `IntStringRoundTrip`, which reads every integer back from it |
| PhpValues.Truthy | Shipment.php:68 | PHP's truthiness of the `when` callback's result; pinned by `TruthyExamples` and `TruthyAgreesWithString` |
| PhpValues.TruthyExamples | Shipment.php:68 | null, '', '0' and 0 are falsy; '00', ' ', '0.00', 1 and -1 are truthy |
| PhpValues.TruthyAgreesWithString | Shipment.php:68 | an integer and its string form are equally truthy: only 0 and '0' are falsy |
| ShipmentRecord.TYPE_DELIVERIES | Shipment.php:17 | the Hebrew name of the deliveries type; pinned by `DefaultShipmentValues` and `RuleCatalog.DefaultsAreListed`, which also shows it differs from `TYPE_RETURNS` |
| ShipmentRecord.TYPE_RETURNS | Shipment.php:18 | the Hebrew name of the returns type; pinned by `RuleCatalog.DefaultsAreListed` |
| ShipmentRecord.FieldAt | Shipment.php:21-25 | the property declared at each index; pinned by `DeclaredAtPosition` and `PositionOfDeclared` |
| ShipmentRecord.Declared | Shipment.php:21-25 | the 41 properties in declaration order; pinned by `DeclaredAtPosition`, `PositionOfDeclared` and `DeclaredOnce` |
| ShipmentRecord.Position | Shipment.php:21-25 | each property has a declared position below 41 |
| ShipmentRecord.DeclaredAtPosition | Shipment.php:21-25 | the declared list has 41 entries, and the property at a property's position is that property |
| ShipmentRecord.PositionOfDeclared | Shipment.php:21-25 | the position of the i-th declared property is i |
| ShipmentRecord.DeclaredOnce | Shipment.php:21-25 | every property is declared, and no two positions hold the same property |
| ShipmentRecord.PositionsOfDeclared | Shipment.php:21-25 | position and declaration order are inverse for all 41 indices |
| ShipmentRecord.WellFormed | Shipment.php:169 | what `get_object_vars` yields: one entry per declared property, in declaration order; pinned by `GetAt`, `DefaultShipment`, `SetThenGet` and `FromArray` |
| ShipmentRecord.Get | Shipment.php:21-25 | reading a property of a well-formed record gives the value of the one entry with that name |
| ShipmentRecord.GetAt | Shipment.php:21-25 | the entry named `f` sits at `f`'s declared position and nowhere else |
| ShipmentRecord.Set | Shipment.php:35 | writing a property keeps every name in place and changes only the value of the entries with that name |
| ShipmentRecord.SetThenGet | Shipment.php:35 | after a write the record is still well-formed, the written property reads back, and every other property is unchanged |
| ShipmentRecord.DefaultValue | Shipment.php:21-25 | the initial value of each property; pinned by `DefaultShipmentValues` and `Validation.EmptyDefault` |
| ShipmentRecord.DefaultShipment | Shipment.php:21-25 | a new record is well-formed |
| ShipmentRecord.DefaultShipmentValues | Shipment.php:21-25 | a new record has type TYPE_DELIVERIES, code 140, stage 4, cargoType 199 and responseType 'XML', and every other property null |
| ShipmentRecord.LastAssigned | Shipment.php:34-36 | the value the last pair naming a property assigns, or a fallback; pinned by `LastAssignedNone` and `LastAssignedLast` |
| ShipmentRecord.Built | Shipment.php:31-38 | the record `fromArray` returns; pinned by `BuiltValues`, `BuiltStep` and `BuiltFromNothing` |
| ShipmentRecord.BuiltStep | Shipment.php:34-36 | one more assigned pair is one more property write |
| ShipmentRecord.BuiltFromNothing | Shipment.php:31-38 | `fromArray([])` is the default record |
| ShipmentRecord.BuiltValues | Shipment.php:31-38 | `fromArray` keeps the declared layout, a property named by no pair keeps its default, and one named takes the value of the last pair naming it |
| ShipmentRecord.LastAssignedNone | Shipment.php:34-36 | a property no pair names keeps its previous value |
| ShipmentRecord.LastAssignedLast | Shipment.php:34-36 | the last pair naming a property decides its value |
| ShipmentRecord.FromArray | Shipment.php:31-38 | the loop over the pairs yields a well-formed record equal to `Built(data)` |
| RuleCatalog.RuleAt | Shipment.php:45-76 | entry j of the rule table; pinned by `NumberRulesOfTable`, `Validation.RequiredRuleOfTable`, `Validation.StringRulesOfTable`, `Validation.MatchRulesOfTable` and `OtherRulesOfTable` |
| RuleCatalog.Rules | Shipment.php:45-76 | the 23 entries of `rules()` in table order; pinned by the same lemmas as `RuleAt` |
| RuleCatalog.OtherRulesOfTable | Shipment.php:71-73 | the email rule is entry 21 and names consigneeEmail alone; the inList rule is the last entry and names exactly the properties with an option table |
| RuleCatalog.Kind.Name | Shipment.php:48-73 | the kind string of each rule; pinned by `IsNumberRuleByKind` and `Validation.RequiredOnlyFirst` |
| RuleCatalog.IsNumberRule | Shipment.php:167 | the `in_array` test on the kind; pinned by `IsNumberRuleByKind` and `NumberRulesOfTable` |
| RuleCatalog.IsNumberRuleByKind | Shipment.php:167 | a rule's kind is 'integer' or 'number' exactly when it is an Integer or Number rule |
| RuleCatalog.NumberAttributes | Shipment.php:166-168 | a property is a number attribute exactly when some integer or number rule names it |
| RuleCatalog.NumberRulesOfTable | Shipment.php:50-54 | the integer and number rules are entries 1 to 5 of the table and no others |
| RuleCatalog.NumberRulesName | Shipment.php:50-54 | entries 1 to 5 name exactly the eleven numeric properties |
| RuleCatalog.NumberAttributesOfRules | Shipment.php:166-168 | the number attributes of `rules()` are exactly code, stage, cargoType, returnCargoType, returnPackagesNumber, packagesNumber, parcelPreparationTime, consigneeSum, returnPickupPoint, pickupPoint and paymentTypeCode |
| RuleCatalog.SpreadMerge | Shipment.php:166 | spreading arrays into `array_merge` fails exactly when one of them has a string key, and otherwise yields exactly the elements of the arrays |
| RuleCatalog.RuleKey | Shipment.php:73 | the key of each entry, 'lists' for the last and none for the others; pinned by `Keyed` and `KeyedMergeFails` |
| RuleCatalog.NumberList | Shipment.php:167 | the callback's result for one rule; pinned by `Keyed` and `PositionalMerge` |
| RuleCatalog.Keyed | Shipment.php:166-168 | the mapped rule list has one entry per rule, entry j holds rule j's callback result, and only the last entry has a key, 'lists' |
| RuleCatalog.KeyedMergeFails | Shipment.php:73 | the merge of the mapped rule list fails because its last entry is keyed 'lists' |
| RuleCatalog.KeyedIsUnkeyedWithKeys | Shipment.php:166-168 | the keyed and the unkeyed callback lists hold the same arrays at every index and differ only in the last key |
| RuleCatalog.PositionalMerge | Shipment.php:166-168 | merging the unkeyed callback results succeeds and equals `NumberAttributes` |
| RuleCatalog.TypeListKeys | Shipment.php:181-187 | the keys of `typeList()`; pinned by `DefaultsAreListed` |
| RuleCatalog.AutoPickupPointListKeys | Shipment.php:192-200 | the keys of `autoPickupPointList()`; tied to the inList rule by `OtherRulesOfTable` |
| RuleCatalog.CodeListKeys | Shipment.php:205-208 | the keys of `codeList()`; pinned by `DefaultsAreListed` |
| RuleCatalog.CargoTypeListKeys | Shipment.php:213-229 | the keys of `cargoTypeList()`; pinned by `DefaultsAreListed` |
| RuleCatalog.PaymentTypeCodeListKeys | Shipment.php:234-241 | the keys of `paymentTypeCodeList()`; tied to the inList rule by `OtherRulesOfTable` |
| RuleCatalog.ListKeysOf | Shipment.php:73 | the option table of each inList property; pinned by `OtherRulesOfTable` |
| RuleCatalog.DefaultsAreListed | Shipment.php:21 | the defaults of type, code and cargoType are keys of typeList, codeList and cargoTypeList, and the two type constants differ |
| ApiData.NumberAttributesAre | Shipment.php:166-168 | the number attributes are exactly the eleven numeric properties |
| ApiData.TokensAre | Shipment.php:171 | with the number attributes of the rule table, a token is the property's prefix followed by its string form |
| ApiData.Token | Shipment.php:171 | one property's token; pinned by `TokensAre` |
| ApiData.ToApiData | Shipment.php:164-173 | the corrected encoder (keys dropped before the merge): one token per property, in record order, each the property's prefix followed by its string form |
| ApiData.EncodeWith | Shipment.php:166-172 | the encoder yields tokens exactly when the merge of the callback results succeeds |
| ApiData.ToApiDataAsWritten | Shipment.php:164-173 | the encoder as written; pinned by `ToApiDataAsWrittenFails` |
| ApiData.ToApiDataAsWrittenFails | Shipment.php:166-168 | as written, the encoder fails on every record |
| ApiData.ToApiDataCorrected | Shipment.php:166-172 | merging without the keys gives exactly the tokens of `ToApiData` |
| ApiData.ApiDataLayout | Shipment.php:169-172 | a well-formed record encodes to 41 tokens, and the token at a property's position is that property's token |
| ApiData.ApiDataOfBuilt | Shipment.php:169-172 | for any `fromArray` input there are 41 tokens, whose prefixes follow the declaration order |
| ApiData.NumberPrefixExactly | Shipment.php:171 | a token starts with '-N' exactly for the numeric properties, and with '-A' exactly for the others |
| ApiData.NullToken | Shipment.php:171 | a null property becomes its bare prefix |
| ApiData.IntToken | Shipment.php:171 | code 140 becomes "-N140" |
| ApiData.StrToken | Shipment.php:171 | consigneeName "Alice" becomes "-AAlice" |
| ApiData.ApiDataLocality | Shipment.php:164-173 | changing one property changes only the token at its position, whatever the value |
| ApiData.DecodeApiDataRoundTrip | Shipment.php:170-172 | stripping the prefixes of an encoding gives back, per property, whether it is numeric and its string form |
| ApiData.IntFieldRoundTrip | Shipment.php:171 | an integer property's token decodes back to that integer |
| Validation.ShapeExamples | Shipment.php:67-69 | '01/02/2024' and '09:30' match their shapes, one trailing newline is let through, and a missing digit or a second newline is rejected |
| Validation.HasShape | Shipment.php:67-69 | the two digit shapes with nothing before or after; pinned by `ShapeExamples` |
| Validation.Matches | Shipment.php:67-69 | the anchored patterns, with the one trailing newline `$` lets through; pinned by `ShapeExamples` |
| Validation.Applies | Shipment.php:68 | whether a rule's `when` holds; pinned by `CheckRule` and `ConsigneeDateOnlyWithSum` |
| Validation.Fails | Shipment.php:48-70 | whether a value fails a rule kind; pinned by `CheckAttributes`, `EmptyFailsOnlyRequired` and the `*Violation` lemmas |
| Validation.CheckAttributes | Shipment.php:48-73 | a rule over a property list reports a property exactly when it is listed and fails the rule's kind |
| Validation.CheckRule | Shipment.php:68 | a rule whose `when` is false reports nothing, and otherwise reports exactly its failing properties |
| Validation.CheckRules | Shipment.php:47-75 | a violation is reported exactly when one of the rules reports it |
| Validation.Validate | Shipment.php:47-75 | the violations of a record under the table; pinned by `CheckRules`, `ViolationCauses`, `ValidateInTableOrder` and `RequiredReportedOnce` |
| Validation.CheckRulesAppendStep | Shipment.php:47-75 | one more rule at the end of the second part keeps the two-part decomposition |
| Validation.CheckRulesAppend | Shipment.php:47-75 | checking a table in two parts reports the first part's violations, then the second's |
| Validation.ValidateInTableOrder | Shipment.php:47-75 | the violations of the entries before j come first, then those of entry j, then those of the entries after it |
| Validation.ValidateFirst | Shipment.php:47-75 | the violations of the required rule come before those of every other entry |
| Validation.RequiredRuleCount | Shipment.php:48 | the required rule reports a property once if it is required and empty, and otherwise not at all |
| Validation.CheckAttributesCount | Shipment.php:48-73 | a property failing a rule kind is reported as many times as the rule lists it, and otherwise not at all |
| Validation.RequiredOnlyFirst | Shipment.php:48 | no entry after the first reports under the kind 'required' |
| Validation.RequiredListedOnce | Shipment.php:48 | the required rule lists each required property exactly once and no other property |
| Validation.RequiredReportedOnce | Shipment.php:48 | an empty required property is reported exactly once under 'required', and any other property not at all |
| Validation.RequiredRuleOfTable | Shipment.php:48 | only entry 0 is a required rule, and it names the eight required properties |
| Validation.MatchRulesOfTable | Shipment.php:67-69 | the match rules are entries 17 to 19, and entry 18 is the only rule with a `when` |
| Validation.StringRulesOfTable | Shipment.php:56-70 | every string rule gives each of its properties the declared maximum |
| Validation.StringRuleFor | Shipment.php:56-70 | every property with a maximum is named by a string rule with that maximum |
| Validation.RequiredRuleExplained | Shipment.php:48 | a violation of the required rule is a required property that is empty |
| Validation.StringRuleExplained | Shipment.php:56-70 | a violation of a string rule is a string longer than its property's maximum |
| Validation.MatchRuleExplained | Shipment.php:67-69 | a violation of a match rule is a non-empty value of the wrong shape, and for consigneeDate only while consigneeSum is truthy |
| Validation.ViolationCauses | Shipment.php:47-75 | every violation is explained by a required, string or match rule |
| Validation.EntryReported | Shipment.php:47-75 | a property that fails a rule in force is reported under that rule's kind |
| Validation.EmptyRequiredIsReported | Shipment.php:48 | an empty required property is reported |
| Validation.RequiredViolation | Shipment.php:48 | a required violation is reported exactly for the required properties that are null or '' |
| Validation.EmptyFailsOnlyRequired | Shipment.php:48-70 | an empty property fails no rule but the required one |
| Validation.TooLongIsReported | Shipment.php:56-70 | a string over its property's maximum is reported |
| Validation.MaxLengthViolation | Shipment.php:56-70 | a string violation is reported exactly for strings longer than their property's maximum |
| Validation.BadDateIsReported | Shipment.php:67 | a non-empty pickupDate or parcelPreparationDate that is not DD/DD/DDDD is reported |
| Validation.BadConsigneeDateIsReported | Shipment.php:68 | while consigneeSum is truthy, a non-empty consigneeDate that is not DD/DD/DDDD is reported |
| Validation.BadTimeIsReported | Shipment.php:69 | a non-empty pickupTime that is not DD:DD is reported |
| Validation.BadShapeIsReported | Shipment.php:67-69 | a non-empty value of the wrong shape is reported while its rule is in force |
| Validation.ConsigneeDateViolation | Shipment.php:68 | every consigneeDate violation is a bad shape reported while consigneeSum is truthy |
| Validation.ConsigneeDateOnlyWithSum | Shipment.php:68 | while consigneeSum is falsy no consigneeDate violation is reported, and while it is truthy a bad consigneeDate is reported |
| Validation.ShapeUnconditional | Shipment.php:67-69 | pickupDate, parcelPreparationDate and pickupTime are reported exactly when they are non-empty and of the wrong shape, whatever consigneeSum is |
| Validation.EmptyDefault | Shipment.php:21-25 | only properties without a non-null default can be empty by default |
| Validation.RequiredWithoutDefault | Shipment.php:48 | the required properties other than type, code and cargoType are consigneeName, cityName, streetName, buildingNumber and phoneNumber |
| Validation.DefaultViolationIsMissing | Shipment.php:48 | every violation of a record at its defaults is a missing consigneeName, cityName, streetName, buildingNumber or phoneNumber |
| Validation.DefaultShipmentOnlyMissing | Shipment.php:48 | every violation of a new record is a missing consigneeName, cityName, streetName, buildingNumber or phoneNumber |
| Validation.DefaultShipmentMissing | Shipment.php:48 | a new record reports each of those five properties as missing |
| Validation.DefaultShipmentViolations | Shipment.php:48 | a default record fails exactly the required rule of those five properties, and type, code and cargoType are filled in |

## Left out

- Api.php is not part of this model. It is an HTTP client: requests, remote JSON and headers are I/O.
- `hint()` and `attributeLabels()` are left out (Shipment.php:83-158). They are text lookup tables for forms.
- The static `$addressList` is left out (Shipment.php:19). Nothing reads it.
- The semantics of the number, integer, email and inList rules are left out. This includes `integerPattern` and `numberPattern`. The validation framework defines them and it is not in the repository. The rules are kept as data, and the checker never fails them.
- Validation.RequiredViolation: does not model the framework's trimming or its "empty array" case. Only `null` and `''` count as empty.
- Validation.MaxLengthViolation: does not model the framework's report that a non-string value is not a string. Only string values are measured.
- Validation.CheckAttributes: the order of the violations within one rule (list order) is fixed by the definition, but no lemma states it. The order across rules is stated by `ValidateInTableOrder`.
- Float values are left out, and so is PHP's `(string)` of floats and arrays. Values are `null`, strings and integers; a float consigneeSum is not modelled.
- Dynamic properties from undeclared `fromArray` keys are left out. Keys are restricted to the declared names, so `get_object_vars` never lists an extra property.
- The labels of the option lists (`'Deliveries'`, `'cargo_type_99'`, …) are left out. Only their keys are modelled, since only the keys matter to inList.
- Key normalisation of the option lists is not modelled. PHP would turn a numeric-string key like `'1'` into an integer key, but the keys are written in their final types here.

## Findings

| source | as written | input that shows it | evidently intended | confidence | as-written member | corrected member |
|---|---|---|---|---|---|---|
| Shipment.php:166-168 | the keyed result of `array_map` over `rules()` is spread into `array_merge`, and its last entry carries the string key 'lists'; PHP passes such an entry as a named argument (or refuses to unpack it before PHP 8), and `array_merge` accepts none, so the call fails | any record, e.g. `fromArray([])->toApiData()` | merge the callback results positionally, giving one token per property with the eleven numeric properties prefixed '-N' | medium; not executed | ApiData.ToApiDataAsWrittenFails | ApiData.ToApiDataCorrected |
