/**
  The vendor init hook of the Samsung Galaxy Note 4 (trlte) family,
  init/init_trlte.cpp. At boot it reads `ro.bootloader`, picks the first of seven
  regional variants whose bootloader prefix starts that string, and writes the
  variant's identity (fingerprint, model, device and name under six product-property
  namespaces, and the build description) and its telephony mode (GSM or CDMA) into
  the property store. An unrecognised bootloader only gets the GSM defaults.

  The store is a `PropertyStore`; the writes a run makes are also given as a
  sequence of `Write` records (`LoadWrites`), whose effect `Run` computes.
 */
module InitTrlte {
  import opened Properties
  import opened StringFind

  /** The telephony mode of a variant, with the arguments of `cdma_properties`. */
  datatype Telephony =
    | Gsm
    | Cdma(operatorAlpha: string, operatorNumeric: string, cdmaSub: string)

  /** What one matched branch of `vendor_load_properties` writes. */
  datatype Variant = Variant(
    fingerprint: string,
    model: string,
    device: string,
    name: string,
    description: string,
    telephony: Telephony)

  /** The branch `vendor_load_properties` takes: a row of `Variants`, or the final `else`. */
  datatype Outcome = Matched(index: nat) | Unmatched

  /** `ro_product_props_default_source_order`: the namespaces of the product properties. */
  const SourceOrder: seq<string> :=
    ["", "product.", "product_services.", "odm.", "vendor.", "system."]

  /** The four product attributes each namespace receives, in the order they are written. */
  const Attributes: seq<string> := ["fingerprint", "model", "device", "name"]

  /** The values a variant gives the four attributes, aligned with `Attributes`. */
  function AttributeValues(v: Variant): seq<string> {
    [v.fingerprint, v.model, v.device, v.name]
  }

  /** The bootloader prefixes of the seven branches, in the order the source tests them. */
  const Prefixes: seq<string> := ["N910F", "N910G", "N910P", "N910R4", "N910T", "N910V", "N910W8"]

  /** The seven branches, in the order the source tests them; row `i` belongs to `Prefixes[i]`. */
  const Variants: seq<Variant> := [
    // trltexx, init/init_trlte.cpp:107-116
    Variant("samsung/trltexx/trlte:6.0.1/MMB29M/N910FXXU1DRD1:user/release-keys",
      "SM-N910F", "trlte", "trltexx",
      "trltexx-user 6.0.1 MMB29M N910FXXU1DRD1 release-keys",
      Gsm),
    // trltedt, init/init_trlte.cpp:117-126
    Variant("samsung/trltedt/trlte:6.0.1/MMB29M/N910GDTU1DRD1:user/release-keys",
      "SM-N910G", "trlte", "trltedt",
      "trltedt-user 6.0.1 MMB29M N910GDTU1DRD1 release-keys",
      Gsm),
    // trltespr, init/init_trlte.cpp:127-136
    Variant("samsung/trltespr/trltespr:6.0.1/MMB29M/N910PVPU5DQI5:user/release-keys",
      "SM-N910P", "trltespr", "trltespr",
      "trltespr-user 6.0.1 MMB29M N910PVPU5DQI5 release-keys",
      Cdma("Sprint", "310120", "1")),
    // trlteusc, init/init_trlte.cpp:137-146
    Variant("samsung/trlteusc/trlteusc:6.0.1/MMB29M/N910R4TYS1CQC1:user/release-keys",
      "SM-N910R4", "trlteusc", "trlteusc",
      "trlteusc-user 6.0.1 MMB29M N910R4TYS1CQC1 release-keys",
      Cdma("U.S. Cellular", "311580", "1")),
    // trltetmo, init/init_trlte.cpp:147-156
    Variant("samsung/trltetmo/trltetmo:6.0.1/MMB29M/N910TUVU2EQI2:user/release-keys",
      "SM-N910T", "trltetmo", "trltetmo",
      "trltetmo-user 6.0.1 MMB29M N910TUVU2EQI2 release-keys",
      Gsm),
    // trltevzw, init/init_trlte.cpp:157-166
    Variant("Verizon/trltevzw/trltevzw:6.0.1/MMB29M/N910VVRU2CQL1:user/release-keys",
      "SM-N910V", "trltevzw", "trltevzw",
      "trltevzw-user 6.0.1 MMB29M N910VVRU2CQL1 release-keys",
      Cdma("Verizon", "311480", "1")),
    // trltecan, init/init_trlte.cpp:167-176
    Variant("samsung/trltecan/trltecan:6.0.1/MMB29M/N910W8VLS1DQH2:user/release-keys",
      "SM-N910W8", "trltecan", "trltecan",
      "trltecan-user 6.0.1 MMB29M N910W8VLS1DQH2 release-keys",
      Gsm)
  ]

  // Property names written outside the product namespaces.
  const BootloaderKey := "ro.bootloader"
  const DescriptionKey := "ro.build.description"
  const LteOnGsmKey := "telephony.lteOnGsmDevice"
  const LteOnCdmaKey := "telephony.lteOnCdmaDevice"
  const DefaultNetworkKey := "ro.telephony.default_network"
  const OperatorAlphaKey := "ro.cdma.home.operator.alpha"
  const OperatorNumericKey := "ro.cdma.home.operator.numeric"
  const CdmaSubKey := "ro.telephony.default_cdma_sub"
  const SubscriptionTypesKey := "ril.subscription.types"

  /** The property name `set_ro_product_prop` builds. */
  function ProductKey(source: string, attr: string): string {
    "ro.product." + source + attr
  }

  /** The 24 product properties a matched branch may write. */
  function ProductKeys(): set<string> {
    set s, a | s in SourceOrder && a in Attributes :: ProductKey(s, a)
  }

  /**
    The branch the `if`/`else if` chain takes: the index of the variant whose prefix
    `bootloader.find` reports at position 0, tested in source order, or `Unmatched` for
    the final `else`.
   */
  function Branch(bootloader: string): (r: Outcome)
    ensures r.Matched? ==> r.index < |Variants|
  {
    if Find(bootloader, "N910F") == Some(0) then Matched(0)
    else if Find(bootloader, "N910G") == Some(0) then Matched(1)
    else if Find(bootloader, "N910P") == Some(0) then Matched(2)
    else if Find(bootloader, "N910R4") == Some(0) then Matched(3)
    else if Find(bootloader, "N910T") == Some(0) then Matched(4)
    else if Find(bootloader, "N910V") == Some(0) then Matched(5)
    else if Find(bootloader, "N910W8") == Some(0) then Matched(6)
    else Unmatched
  }

  /** The write `set_ro_product_prop(source, prop, value)` makes: override only. */
  function RoProductWrite(source: string, prop: string, value: string): Write {
    Override(ProductKey(source, prop), value, false)
  }

  /** The four writes of one iteration of the loop over the namespaces. */
  function SourceWrites(source: string, v: Variant): seq<Write> {
    [ RoProductWrite(source, "fingerprint", v.fingerprint),
      RoProductWrite(source, "model", v.model),
      RoProductWrite(source, "device", v.device),
      RoProductWrite(source, "name", v.name) ]
  }

  /** The writes of the loop over `sources`, in order. */
  function ProductWrites(sources: seq<string>, v: Variant): seq<Write>
    decreases |sources|
  {
    if sources == [] then []
    else ProductWrites(sources[..|sources| - 1], v) + SourceWrites(sources[|sources| - 1], v)
  }

  /** The writes of `gsm_properties`. */
  function GsmWrites(): seq<Write> {
    [ Set(LteOnGsmKey, "1"),
      Set(DefaultNetworkKey, "9") ]
  }

  /** The writes of `cdma_properties(alpha, numeric, sub)`. */
  function CdmaWrites(alpha: string, numeric: string, sub: string): seq<Write> {
    [ Set(OperatorAlphaKey, alpha),
      Set(OperatorNumericKey, numeric),
      Set(CdmaSubKey, sub),
      Set(SubscriptionTypesKey, "NV,RUIM"),
      Set(DefaultNetworkKey, "10"),
      Set(LteOnCdmaKey, "1") ]
  }

  /** The writes of the telephony call a branch makes. */
  function TelephonyWrites(t: Telephony): seq<Write> {
    match t
    case Gsm => GsmWrites()
    case Cdma(alpha, numeric, sub) => CdmaWrites(alpha, numeric, sub)
  }

  /** The writes of a matched branch. */
  function VariantWrites(v: Variant): seq<Write> {
    ProductWrites(SourceOrder, v)
      + [Override(DescriptionKey, v.description, true)]
      + TelephonyWrites(v.telephony)
  }

  /** The writes `vendor_load_properties` makes for a given `ro.bootloader`. */
  function LoadWrites(bootloader: string): seq<Write> {
    match Branch(bootloader)
    case Matched(i) => VariantWrites(Variants[i])
    case Unmatched => GsmWrites()
  }

  /** The store `vendor_load_properties` leaves behind. */
  function Load(m: Store): Store {
    Run(m, LoadWrites(Get(m, BootloaderKey, "")))
  }

  /** `gsm_properties()`. */
  method GsmProperties(store: PropertyStore)
    requires store.Valid()
    modifies store
    ensures store.Valid() && store.initial == old(store.initial)
    ensures store.history == old(store.history) + GsmWrites()
    ensures store.props == Run(old(store.props), GsmWrites())
  {
    store.PropertySet(LteOnGsmKey, "1");
    store.PropertySet(DefaultNetworkKey, "9");
    RunAppend(store.initial, old(store.history), GsmWrites());
  }

  /** `cdma_properties(operator_alpha, operator_numeric, cdma_sub)`. */
  method CdmaProperties(store: PropertyStore, alpha: string, numeric: string, sub: string)
    requires store.Valid()
    modifies store
    ensures store.Valid() && store.initial == old(store.initial)
    ensures store.history == old(store.history) + CdmaWrites(alpha, numeric, sub)
    ensures store.props == Run(old(store.props), CdmaWrites(alpha, numeric, sub))
  {
    ghost var done := store.history;
    // Dynamic CDMA properties
    store.PropertySet(OperatorAlphaKey, alpha);
    store.PropertySet(OperatorNumericKey, numeric);
    store.PropertySet(CdmaSubKey, sub);
    assert store.history == done + CdmaWrites(alpha, numeric, sub)[..3];
    done := store.history;
    // Static CDMA properties
    store.PropertySet(SubscriptionTypesKey, "NV,RUIM");
    store.PropertySet(DefaultNetworkKey, "10");
    store.PropertySet(LteOnCdmaKey, "1");
    assert store.history == done + CdmaWrites(alpha, numeric, sub)[3..];
    RunAppend(store.initial, old(store.history), CdmaWrites(alpha, numeric, sub));
  }

  /** The `set_ro_product_prop` lambda of `vendor_load_properties`. */
  method SetRoProductProp(store: PropertyStore, source: string, prop: string, value: string)
    requires store.Valid()
    modifies store
    ensures store.Valid() && store.initial == old(store.initial)
    ensures store.history == old(store.history) + [RoProductWrite(source, prop, value)]
    ensures store.props == Run(old(store.props), [RoProductWrite(source, prop, value)])
  {
    var propName := "ro.product." + source + prop;
    store.PropertyOverride(propName, value, false);
    RunAppend(store.initial, old(store.history), [RoProductWrite(source, prop, value)]);
  }

  /**
    The loop of a matched branch of `vendor_load_properties`: for each namespace of
    `sources` in turn, `set_ro_product_prop` for the four attributes.
   */
  method SetRoProductProps(store: PropertyStore, sources: seq<string>, v: Variant)
    requires store.Valid()
    modifies store
    ensures store.Valid() && store.initial == old(store.initial)
    ensures store.history == old(store.history) + ProductWrites(sources, v)
    ensures store.props == Run(old(store.props), ProductWrites(sources, v))
  {
    for j := 0 to |sources|
      invariant store.Valid() && store.initial == old(store.initial)
      invariant store.history == old(store.history) + ProductWrites(sources[..j], v)
    {
      var source := sources[j];
      SetRoProductProp(store, source, "fingerprint", v.fingerprint);
      SetRoProductProp(store, source, "model", v.model);
      SetRoProductProp(store, source, "device", v.device);
      SetRoProductProp(store, source, "name", v.name);
      assert sources[..j + 1][..j] == sources[..j];
    }
    assert sources[..|sources|] == sources;
    RunAppend(store.initial, old(store.history), ProductWrites(sources, v));
  }

  /**
    The body shared by the seven matched branches of `vendor_load_properties`: the
    loop over the namespaces, the build description and the telephony properties.
   */
  method WriteVariant(store: PropertyStore, v: Variant)
    requires store.Valid()
    modifies store
    ensures store.Valid() && store.initial == old(store.initial)
    ensures store.history == old(store.history) + VariantWrites(v)
    ensures store.props == Run(old(store.props), VariantWrites(v))
  {
    SetRoProductProps(store, SourceOrder, v);
    store.PropertyOverride(DescriptionKey, v.description, true);
    match v.telephony {
      case Gsm =>
        GsmProperties(store);
      case Cdma(alpha, numeric, sub) =>
        CdmaProperties(store, alpha, numeric, sub);
    }
    RunAppend(store.initial, old(store.history), VariantWrites(v));
  }

  /**
    `vendor_load_properties()`: the writes recorded are exactly `LoadWrites` of the
    bootloader the store held, and the store becomes `Load` of the old one.
   */
  method VendorLoadProperties(store: PropertyStore)
    requires store.Valid()
    modifies store
    ensures store.Valid() && store.initial == old(store.initial)
    ensures store.history == old(store.history) + LoadWrites(Get(old(store.props), BootloaderKey, ""))
    ensures store.props == Load(old(store.props))
  {
    var bootloader := store.GetProperty(BootloaderKey, "");
    match Branch(bootloader) {
      case Matched(i) =>
        WriteVariant(store, Variants[i]);
      case Unmatched =>
        GsmProperties(store);
    }
    RunAppend(store.initial, old(store.history), LoadWrites(bootloader));
  }
}
