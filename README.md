# trlte vendor init, modelled in Dafny

This project models the vendor init hook of the Samsung Galaxy Note 4 (trlte) device
tree, `init/init_trlte.cpp`. At boot, `vendor_load_properties` reads `ro.bootloader`.
It picks the first of seven regional variants (N910F, N910G, N910P, N910R4, N910T,
N910V, N910W8) whose prefix the bootloader id starts with. It then writes that
variant's identity: fingerprint, model, device and name under each of the six
product-property namespaces of `ro_product_props_default_source_order`, and the
build description. Last, it writes the variant's telephony mode, GSM
(`gsm_properties`) or CDMA (`cdma_properties`). An unrecognised bootloader gets only
the GSM defaults.

- `properties.dfy` (module `Properties`): the system property store. It is a class
  `PropertyStore` whose `props` map is updated in place by `PropertyOverride`
  (`property_override`) and `PropertySet` (`property_set`). Ghost fields record the
  initial store and every write made since. `Run` replays a sequence of writes, and
  lemmas characterise its result key by key.
- `string_find.dfy` (module `StringFind`): `std::string::find`, which picks the branch
  through `bootloader.find(prefix) == 0`.
- `init_trlte.dfy` (module `InitTrlte`): the namespace list, the seven branches as
  a table `Variants`, and the methods `GsmProperties`, `CdmaProperties`,
  `SetRoProductProp` (the lambda), `SetRoProductProps` (the loop), `WriteVariant` and
  `VendorLoadProperties`. Each method is proved to make exactly the writes given by
  a specification function (`GsmWrites`, `CdmaWrites`, `ProductWrites`,
  `VariantWrites`, `LoadWrites`). `VendorLoadProperties` is proved to leave
  `Load(old store)`.
- `init_trlte_facts.dfy` (module `InitTrlteFacts`): what those writes do to the store.
  It covers branch selection, which properties are created or only overridden, the
  value each property ends with, the telephony mode, idempotence, and a few
  particular bootloader ids.

The seven branch bodies of the source differ in their literals. They also differ in
whether they end with `gsm_properties()` or with
`cdma_properties(alpha, numeric, sub)`. The model keeps them as seven rows of
`Variants` run by one method, `WriteVariant`. Each row carries its literals
unchanged, and its `telephony` field records which of the two calls it makes, with
the arguments.

## Model

| member | source | states |
|---|---|---|
| Properties.PropertyStore.PropertyOverride | init/init_trlte.cpp:65-74 | An existing property takes the new value; an absent one is created only when `add` holds and otherwise the store is unchanged; the write is recorded and the store stays the replay of its writes |
| Properties.PropertyStore.PropertySet | init/init_trlte.cpp:76-95 | `property_set` (imported at line 52, called at lines 78-79 and 87-94): the property takes the value, created if absent; nothing else changes; the write is recorded |
| Properties.PropertyStore.GetProperty | init/init_trlte.cpp:99 | The value of the key, or the default when the key is absent or empty; with an empty default this is a plain lookup |
| Properties.StepEffect | init/init_trlte.cpp:65-74 | One write: the key exists afterwards iff it existed or the write creates it, it then holds the written value, and every other key keeps its value |
| Properties.RunEffect | init/init_trlte.cpp:65-74 | After a run of writes the keys are the old keys plus those some write creates; untouched keys keep their values; a touched existing key holds the last value written to it |
| Properties.RunLastCreation | init/init_trlte.cpp:65-74 | If write i creates its key and no later write touches it, the key ends with write i's value whatever the store held |
| Properties.RunUntouched | init/init_trlte.cpp:65-74 | A key no write names is left exactly as it was, present or absent |
| Properties.RunAppend | init/init_trlte.cpp:107-179 | Running two write sequences one after the other equals running their concatenation |
| Properties.RunIdempotent | init/init_trlte.cpp:65-94 | Replaying any sequence of override/set writes a second time changes nothing |
| StringFind.FindFromIsLowest | init/init_trlte.cpp:107 | `find` from a position returns the lowest occurrence at or after it, and npos exactly when there is none |
| StringFind.FindZeroIsPrefix | init/init_trlte.cpp:107 | `s.find(p) == 0` holds exactly when `p` is a prefix of `s` |
| InitTrlte.Branch | init/init_trlte.cpp:107-179 | The if/else chain yields one of the seven table rows (`Matched(i)` with `i` a row index) or the final else (`Unmatched`) |
| InitTrlte.GsmProperties | init/init_trlte.cpp:76-80 | Makes exactly the two GSM writes, in order, and leaves the store those writes make of the old one |
| InitTrlte.CdmaProperties | init/init_trlte.cpp:82-95 | Makes exactly the three dynamic and three static CDMA writes, in order, and leaves the store those writes make of the old one |
| InitTrlte.SetRoProductProp | init/init_trlte.cpp:101-105 | Makes one override-only write to `ro.product.<source><prop>`, and leaves the store that write makes of the old one |
| InitTrlte.SetRoProductProps | init/init_trlte.cpp:109-114 | The loop makes four override-only writes per namespace, namespace by namespace in list order, and leaves the store they make of the old one |
| InitTrlte.WriteVariant | init/init_trlte.cpp:108-116 | A matched branch makes the product writes, then the description override, then its telephony writes, and leaves the store they make of the old one |
| InitTrlte.VendorLoadProperties | init/init_trlte.cpp:97-183 | The writes recorded are those of the branch the bootloader selects, and the new store is `Load` of the old one |
| InitTrlteFacts.BranchIsFirstMatch | init/init_trlte.cpp:107-179 | The branch taken is the first variant whose prefix starts the bootloader id; the else branch is taken iff no prefix matches |
| InitTrlteFacts.PrefixesDisjoint | init/init_trlte.cpp:107-167 | No variant prefix is a prefix of another |
| InitTrlteFacts.BranchIsOnlyMatch | init/init_trlte.cpp:107-179 | Branch i is taken iff prefix i starts the bootloader id, so the order of the tests does not matter |
| InitTrlteFacts.ProductKeyInjective | init/init_trlte.cpp:56-63 | Distinct (namespace, attribute) pairs give distinct property names, so the 24 product properties are all different |
| InitTrlteFacts.OtherKeysAreNotProductKeys | init/init_trlte.cpp:76-99 | `ro.bootloader`, the description and the telephony properties are not product properties |
| InitTrlteFacts.ProductWritesOverrideOnly | init/init_trlte.cpp:101-114 | Every write of the namespace loop is an override without add, to a product property, so the loop creates nothing |
| InitTrlteFacts.ProductLastValue | init/init_trlte.cpp:109-114 | After the loop each product property was written and its last value is the variant's value for its attribute |
| InitTrlteFacts.LoadLeavesOthers | init/init_trlte.cpp:97-183 | A property that is neither a product property nor one of the named ones is left exactly as it was |
| InitTrlteFacts.LoadCreatesOnlyOthers | init/init_trlte.cpp:97-183 | A run only ever creates the description and telephony properties |
| InitTrlteFacts.LoadIdempotent | init/init_trlte.cpp:97-183 | Running the hook a second time on its own result changes nothing |
| InitTrlteFacts.ProductKeysNeverCreated | init/init_trlte.cpp:101-105 | A product property exists after a run iff it existed before |
| InitTrlteFacts.VariantProductValue | init/init_trlte.cpp:109-114 | In a matched branch every existing product property ends with the variant's value for its attribute |
| InitTrlteFacts.VariantDescription | init/init_trlte.cpp:115 | A matched branch leaves its description, created if absent |
| InitTrlteFacts.VariantGsm | init/init_trlte.cpp:107-176 | Each GSM row (trltexx, trltedt, trltetmo, trltecan; `gsm_properties()` at lines 116, 126, 156, 176) leaves `telephony.lteOnGsmDevice` 1 and default network 9, and the CDMA properties as they were |
| InitTrlteFacts.VariantCdma | init/init_trlte.cpp:127-166 | Each CDMA row (trltespr, trlteusc, trltevzw; `cdma_properties` at lines 136, 146, 166) leaves its operator, subscription, network 10 and `telephony.lteOnCdmaDevice` 1, and `telephony.lteOnGsmDevice` as it was |
| InitTrlteFacts.VariantTouchesTelephony | init/init_trlte.cpp:108-116 | A matched branch names a telephony property iff its telephony call does |
| InitTrlteFacts.MatchedProductProps | init/init_trlte.cpp:107-174 | With a matched bootloader each product property keeps its presence and, when present, takes the variant's value |
| InitTrlteFacts.DescriptionAlwaysSet | init/init_trlte.cpp:115-175 | With a matched bootloader the build description is the variant's |
| InitTrlteFacts.UnmatchedWritesOnlyGsm | init/init_trlte.cpp:177-179 | With no match the new store is the old one with exactly the two GSM properties set |
| InitTrlteFacts.CdmaBranches | init/init_trlte.cpp:127-166 | The P, R4 and V branches give Sprint 310120, U.S. Cellular 311580 and Verizon 311480, subscription 1, NV,RUIM and network 10 |
| InitTrlteFacts.GsmBranches | init/init_trlte.cpp:107-179 | Every other outcome gives GSM 1 and network 9 and leaves the CDMA properties alone |
| InitTrlteFacts.TelephonyTouched | init/init_trlte.cpp:76-95 | The properties each telephony call writes, as a set |
| InitTrlteFacts.TelephonyExclusive | init/init_trlte.cpp:107-179 | Each run writes exactly one of the GSM and CDMA flags, and with the CDMA flag all CDMA properties |
| InitTrlteFacts.TmobileBootloader | init/init_trlte.cpp:147-156 | Bootloader N910TUVU2EQI2 selects trltetmo, its description and GSM |
| InitTrlteFacts.SprintBootloader | init/init_trlte.cpp:127-136 | Bootloader N910PVPU5DQI5 selects trltespr, operator Sprint 310120 and network 10 |
| InitTrlteFacts.MissingBootloader | init/init_trlte.cpp:177-179 | With `ro.bootloader` absent or empty only the two GSM properties are written |
| InitTrlteFacts.BareStoreGetsNoProductProps | init/init_trlte.cpp:101-105 | A store holding only `ro.bootloader` gets no product property from any branch |

## Left out

- The closing read of `ro.product.device` and the `LOG(ERROR)` line (init/init_trlte.cpp:181-182): they are logging only and change no property.
- The bionic `__system_property_find/update/add` internals: the shared-memory property area, its serials and its size limits. The model treats them as map lookup, update and insertion. The `strlen` arguments are implied by strings being sequences.
- Properties.PropertyStore.PropertySet: does not model the checks of init's `property_set` (refusal to change an existing `ro.` property, SELinux permission, name and value length limits). Those live in property_service, which is not part of this model. The store here accepts every write, as the device tree assumes.
- The value `property_set` returns is ignored by the source and is not modelled.
- Concurrency with other readers of the property area: the hook runs once, single-threaded, during init.
- `Load` reads `ro.bootloader` with a plain lookup defaulting to "". That equals android-base's `GetProperty` rule (empty value gives the default) because the default is empty.
