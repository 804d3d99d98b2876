/**
  What `vendor_load_properties` (init/init_trlte.cpp) guarantees about the property
  store: which branch it takes, which properties it may create, which values it
  leaves, and that running it twice is running it once.
 */
module InitTrlteFacts {
  import opened Properties
  import opened StringFind
  import opened InitTrlte

  // ----- Branch selection -----

  /**
    The branch taken is the first prefix, in source order, that starts the bootloader
    string; the `else` branch is taken exactly when no prefix does.
   */
  lemma BranchIsFirstMatch(bootloader: string)
    ensures Branch(bootloader).Matched? ==>
      Prefixes[Branch(bootloader).index] <= bootloader
      && forall j :: 0 <= j < Branch(bootloader).index ==> !(Prefixes[j] <= bootloader)
    ensures Branch(bootloader).Unmatched? <==>
      forall j :: 0 <= j < |Prefixes| ==> !(Prefixes[j] <= bootloader)
  {
    forall j | 0 <= j < |Prefixes|
      ensures Find(bootloader, Prefixes[j]) == Some(0) <==> Prefixes[j] <= bootloader
    {
      FindZeroIsPrefix(bootloader, Prefixes[j]);
    }
  }

  /** No prefix is a prefix of another, so the order of the tests is immaterial. */
  lemma PrefixesDisjoint(i: nat, j: nat)
    requires i < |Prefixes| && j < |Prefixes| && i != j
    ensures !(Prefixes[i] <= Prefixes[j])
  {
    // The prefixes differ in their fifth character (F, G, P, R, T, V, W).
    var p, q := Prefixes[i], Prefixes[j];
    assert p[4] != q[4];
    assert |p| <= |q| ==> q[..|p|][4] == q[4];
  }

  /** Two prefixes of one string: the shorter is a prefix of the longer. */
  lemma PrefixesOfOneString(p: string, q: string, s: string)
    requires p <= s && q <= s && |p| <= |q|
    ensures p <= q
  {
    assert q[..|p|] == s[..|p|];
  }

  /** A branch is taken exactly when its prefix starts the bootloader string. */
  lemma BranchIsOnlyMatch(bootloader: string, i: nat)
    requires i < |Prefixes|
    ensures Branch(bootloader) == Matched(i) <==> Prefixes[i] <= bootloader
  {
    BranchIsFirstMatch(bootloader);
    if Prefixes[i] <= bootloader && Branch(bootloader) != Matched(i) {
      var j := if Branch(bootloader).Matched? then Branch(bootloader).index else i;
      if j < i {
        var p, q := Prefixes[j], Prefixes[i];
        if |p| <= |q| {
          PrefixesOfOneString(p, q, bootloader);
          PrefixesDisjoint(j, i);
        } else {
          PrefixesOfOneString(q, p, bootloader);
          PrefixesDisjoint(i, j);
        }
      }
    }
  }

  // ----- Property names -----

  /** Distinct (namespace, attribute) pairs name distinct product properties. */
  lemma ProductKeyInjective(s1: nat, a1: nat, s2: nat, a2: nat)
    requires s1 < |SourceOrder| && s2 < |SourceOrder| && a1 < |Attributes| && a2 < |Attributes|
    requires ProductKey(SourceOrder[s1], Attributes[a1]) == ProductKey(SourceOrder[s2], Attributes[a2])
    ensures s1 == s2 && a1 == a2
  {
    // The namespace, or for the empty namespace the attribute, shows in the twelfth
    // character; the lengths tell the rest apart.
    var k1, k2 := ProductKey(SourceOrder[s1], Attributes[a1]), ProductKey(SourceOrder[s2], Attributes[a2]);
    assert |k1| == |k2|;
    assert k1[11] == k2[11];
  }

  /** The properties written outside the product namespaces. */
  function OtherKeys(): set<string> {
    { DescriptionKey, LteOnGsmKey, LteOnCdmaKey, DefaultNetworkKey,
      OperatorAlphaKey, OperatorNumericKey, CdmaSubKey, SubscriptionTypesKey }
  }

  /** Every product property has a `p` for its fourth character, from "ro.product.". */
  lemma NotProductKey(k: string)
    requires |k| <= 3 || k[3] != 'p'
    ensures k !in ProductKeys()
  {
    forall k' | k' in ProductKeys()
      ensures |k'| > 3 && k'[3] == 'p'
    {
      var s, a :| s in SourceOrder && a in Attributes && k' == ProductKey(s, a);
      assert k'[3] == "ro.product."[3];
    }
  }

  /** No product property is `ro.bootloader` or one of the other written properties. */
  lemma OtherKeysAreNotProductKeys()
    ensures BootloaderKey !in ProductKeys()
    ensures forall k :: k in OtherKeys() ==> k !in ProductKeys()
  {
    NotProductKey(BootloaderKey);
    NotProductKey(DescriptionKey);
    NotProductKey(LteOnGsmKey);
    NotProductKey(LteOnCdmaKey);
    NotProductKey(DefaultNetworkKey);
    NotProductKey(CdmaSubKey);
    NotProductKey(OperatorAlphaKey);
    NotProductKey(OperatorNumericKey);
    NotProductKey(SubscriptionTypesKey);
  }

  // ----- The namespace loop -----

  /**
    Every write of the loop over the namespaces is an override that does not create,
    and names one of the 24 product properties.
   */
  lemma {:induction false} ProductWritesOverrideOnly(sources: seq<string>, v: Variant)
    requires forall s :: s in sources ==> s in SourceOrder
    ensures forall i :: 0 <= i < |ProductWrites(sources, v)| ==>
      ProductWrites(sources, v)[i].Override? && !ProductWrites(sources, v)[i].add
      && ProductWrites(sources, v)[i].key in ProductKeys()
    ensures Created(ProductWrites(sources, v)) == {}
    decreases |sources|
  {
    var ws := ProductWrites(sources, v);
    if sources != [] {
      var init, last := sources[..|sources| - 1], sources[|sources| - 1];
      ProductWritesOverrideOnly(init, v);
      var a, b := ProductWrites(init, v), SourceWrites(last, v);
      assert ws == a + b;
      forall i | 0 <= i < |ws|
        ensures ws[i].Override? && !ws[i].add && ws[i].key in ProductKeys()
      {
        if i >= |a| {
          var j := i - |a|;
          assert ws[i] == b[j];
          assert b[j].key == ProductKey(last, Attributes[j]);
        }
      }
    }
    forall k | k in Created(ws) ensures false {
      CreatedMembers(ws, k);
    }
  }

  /**
    After the loop has run over the first `n` namespaces, the last write to the
    property of namespace `si < n` and attribute `ai` carries the variant's value for
    that attribute.
   */
  lemma {:induction false} ProductLastValue(n: nat, v: Variant, si: nat, ai: nat)
    requires si < n <= |SourceOrder| && ai < |Attributes|
    ensures ProductKey(SourceOrder[si], Attributes[ai]) in Touched(ProductWrites(SourceOrder[..n], v))
    ensures LastValue(ProductWrites(SourceOrder[..n], v), ProductKey(SourceOrder[si], Attributes[ai]))
      == AttributeValues(v)[ai]
  {
    var k := ProductKey(SourceOrder[si], Attributes[ai]);
    var sources := SourceOrder[..n];
    assert sources[..n - 1] == SourceOrder[..n - 1];
    var a, b := ProductWrites(SourceOrder[..n - 1], v), SourceWrites(SourceOrder[n - 1], v);
    assert ProductWrites(sources, v) == a + b;
    if si == n - 1 {
      assert b[ai].key == k;
      LastValueAt(b, ai, k);
      LastValueAppend(a, b, k);
    } else {
      ProductLastValue(n - 1, v, si, ai);
      forall j | 0 <= j < |b| ensures b[j].key != k {
        if b[j].key == k {
          ProductKeyInjective(n - 1, j, si, ai);
        }
      }
      TouchedMembers(b, k);
      LastValueAppend(a, b, k);
    }
  }

  // ----- One run of vendor_load_properties -----

  /** Every write of a matched branch names a product property or one of `OtherKeys`. */
  lemma VariantWritesNames(v: Variant)
    ensures forall i :: 0 <= i < |VariantWrites(v)| ==>
      VariantWrites(v)[i].key in ProductKeys() + OtherKeys()
  {
    var ws := VariantWrites(v);
    var p, t := ProductWrites(SourceOrder, v), TelephonyWrites(v.telephony);
    ProductWritesOverrideOnly(SourceOrder, v);
    assert ws == p + [Override(DescriptionKey, v.description, true)] + t;
    forall i | 0 <= i < |ws| ensures ws[i].key in ProductKeys() + OtherKeys() {
      if i < |p| {
        assert ws[i] == p[i];
      } else if i > |p| {
        assert ws[i] == t[i - |p| - 1];
      }
    }
  }

  /** Every write of a run names a product property or one of `OtherKeys`. */
  lemma LoadWritesNames(bootloader: string)
    ensures forall i :: 0 <= i < |LoadWrites(bootloader)| ==>
      LoadWrites(bootloader)[i].key in ProductKeys() + OtherKeys()
  {
    if Branch(bootloader).Matched? {
      VariantWritesNames(Variants[Branch(bootloader).index]);
    }
  }

  /** A property that is neither a product property nor one of `OtherKeys` is never written. */
  lemma LoadLeavesOthers(m: Store, k: string)
    requires k !in ProductKeys() && k !in OtherKeys()
    ensures SameAt(m, Load(m), k)
  {
    var ws := LoadWrites(Get(m, BootloaderKey, ""));
    LoadWritesNames(Get(m, BootloaderKey, ""));
    RunUntouched(m, ws, k);
  }

  /** A matched branch creates no property outside `OtherKeys`. */
  lemma VariantCreatesOnlyOthers(v: Variant)
    ensures Created(VariantWrites(v)) <= OtherKeys()
  {
    var p, d, t := ProductWrites(SourceOrder, v), [Override(DescriptionKey, v.description, true)], TelephonyWrites(v.telephony);
    ProductWritesOverrideOnly(SourceOrder, v);
    CreatedAppend(p + d, t);
    CreatedAppend(p, d);
    forall k | k in Created(t) ensures k in OtherKeys() {
      CreatedMembers(t, k);
    }
    forall k | k in Created(d) ensures k in OtherKeys() {
      CreatedMembers(d, k);
    }
  }

  /** A run creates no property outside `OtherKeys`. */
  lemma LoadCreatesOnlyOthers(bootloader: string)
    ensures Created(LoadWrites(bootloader)) <= OtherKeys()
  {
    if Branch(bootloader).Matched? {
      VariantCreatesOnlyOthers(Variants[Branch(bootloader).index]);
    } else {
      var ws := GsmWrites();
      forall k | k in Created(ws) ensures k in OtherKeys() {
        CreatedMembers(ws, k);
      }
    }
  }

  /**
    Running `vendor_load_properties` twice leaves the store it leaves after one run:
    `ro.bootloader` is never written, so the second run makes the same writes, and
    every write is an update with a constant or a conditional creation.
   */
  lemma LoadIdempotent(m: Store)
    ensures Load(Load(m)) == Load(m)
  {
    var bootloader := Get(m, BootloaderKey, "");
    var ws := LoadWrites(bootloader);
    var once := Run(m, ws);
    OtherKeysAreNotProductKeys();
    LoadLeavesOthers(m, BootloaderKey);
    assert Get(once, BootloaderKey, "") == bootloader;
    RunIdempotent(m, ws);
  }

  /**
    In every branch the 24 product properties exist afterwards exactly when they
    existed before: their writes are overrides that never create.
   */
  lemma ProductKeysNeverCreated(m: Store, k: string)
    requires k in ProductKeys()
    ensures k in Load(m) <==> k in m
  {
    var bootloader := Get(m, BootloaderKey, "");
    RunEffect(m, LoadWrites(bootloader));
    LoadCreatesOnlyOthers(bootloader);
    OtherKeysAreNotProductKeys();
  }

  // ----- What a matched branch leaves -----

  /** The store after the loop over the namespaces, before the description is written. */
  function AfterProducts(m: Store, v: Variant): Store {
    Run(m, ProductWrites(SourceOrder, v))
  }

  /** The store after the loop and the build description, before the telephony writes. */
  function AfterDescription(m: Store, v: Variant): Store {
    Step(AfterProducts(m, v), Override(DescriptionKey, v.description, true))
  }

  /** A matched branch runs the loop, then the description, then the telephony writes. */
  lemma VariantWritesInOrder(m: Store, v: Variant)
    ensures Run(m, VariantWrites(v)) == Run(AfterDescription(m, v), TelephonyWrites(v.telephony))
  {
    var p, d, t := ProductWrites(SourceOrder, v), [Override(DescriptionKey, v.description, true)], TelephonyWrites(v.telephony);
    RunAppend(m, p + d, t);
    RunAppend(m, p, d);
    RunSnoc(Run(m, p), [], d[0]);
    assert [] + [d[0]] == d;
  }

  /** The telephony writes of either mode name only `OtherKeys` other than the description. */
  lemma TelephonyWritesNames(t: Telephony)
    ensures forall i :: 0 <= i < |TelephonyWrites(t)| ==>
      TelephonyWrites(t)[i].key in OtherKeys() - {DescriptionKey}
  {
  }

  /**
    A matched branch gives every existing product property the variant's value for
    its attribute.
   */
  lemma VariantProductValue(m: Store, v: Variant, si: nat, ai: nat)
    requires si < |SourceOrder| && ai < |Attributes|
    requires ProductKey(SourceOrder[si], Attributes[ai]) in m
    ensures ProductKey(SourceOrder[si], Attributes[ai]) in Run(m, VariantWrites(v))
    ensures Run(m, VariantWrites(v))[ProductKey(SourceOrder[si], Attributes[ai])] == AttributeValues(v)[ai]
  {
    var k := ProductKey(SourceOrder[si], Attributes[ai]);
    var p := ProductWrites(SourceOrder, v);
    assert SourceOrder[..|SourceOrder|] == SourceOrder;
    ProductLastValue(|SourceOrder|, v, si, ai);
    ProductWritesOverrideOnly(SourceOrder, v);
    RunEffect(m, p);
    assert k in ProductKeys();
    OtherKeysAreNotProductKeys();
    StepEffect(AfterProducts(m, v), Override(DescriptionKey, v.description, true));
    TelephonyWritesNames(v.telephony);
    RunUntouched(AfterDescription(m, v), TelephonyWrites(v.telephony), k);
    VariantWritesInOrder(m, v);
  }

  /** A matched branch leaves the variant's build description, created if it was absent. */
  lemma VariantDescription(m: Store, v: Variant)
    ensures Has(Run(m, VariantWrites(v)), DescriptionKey, v.description)
  {
    StepEffect(AfterProducts(m, v), Override(DescriptionKey, v.description, true));
    TelephonyWritesNames(v.telephony);
    RunUntouched(AfterDescription(m, v), TelephonyWrites(v.telephony), DescriptionKey);
    VariantWritesInOrder(m, v);
  }

  /** The five properties only `cdma_properties` writes. */
  function CdmaOnlyKeys(): set<string> {
    {OperatorAlphaKey, OperatorNumericKey, CdmaSubKey, SubscriptionTypesKey, LteOnCdmaKey}
  }

  /** The writes before the telephony ones leave every telephony property as it was. */
  lemma TelephonyUntouchedBefore(m: Store, v: Variant, k: string)
    requires k in OtherKeys() - {DescriptionKey}
    ensures SameAt(m, AfterDescription(m, v), k)
  {
    ProductWritesOverrideOnly(SourceOrder, v);
    OtherKeysAreNotProductKeys();
    RunUntouched(m, ProductWrites(SourceOrder, v), k);
    StepEffect(AfterProducts(m, v), Override(DescriptionKey, v.description, true));
  }

  /**
    A matched GSM branch leaves `telephony.lteOnGsmDevice = 1` and default network 9;
    the properties only `cdma_properties` writes keep whatever they held.
   */
  lemma VariantGsm(m: Store, v: Variant)
    requires v.telephony.Gsm?
    ensures var r := Run(m, VariantWrites(v));
      Has(r, LteOnGsmKey, "1") && Has(r, DefaultNetworkKey, "9")
      && forall k :: k in CdmaOnlyKeys() ==> SameAt(m, r, k)
  {
    var before, t := AfterDescription(m, v), GsmWrites();
    VariantWritesInOrder(m, v);
    RunLastCreation(before, t, 0);
    RunLastCreation(before, t, 1);
    forall k | k in CdmaOnlyKeys() ensures SameAt(m, Run(before, t), k) {
      TelephonyUntouchedBefore(m, v, k);
      RunUntouched(before, t, k);
    }
  }

  /**
    A matched CDMA branch leaves the operator, subscription and network properties
    `cdma_properties` writes; `telephony.lteOnGsmDevice` keeps whatever it held.
   */
  lemma VariantCdma(m: Store, v: Variant)
    requires v.telephony.Cdma?
    ensures var r := Run(m, VariantWrites(v));
      Has(r, OperatorAlphaKey, v.telephony.operatorAlpha)
      && Has(r, OperatorNumericKey, v.telephony.operatorNumeric)
      && Has(r, CdmaSubKey, v.telephony.cdmaSub)
      && Has(r, SubscriptionTypesKey, "NV,RUIM")
      && Has(r, DefaultNetworkKey, "10")
      && Has(r, LteOnCdmaKey, "1")
      && SameAt(m, r, LteOnGsmKey)
  {
    var tel := v.telephony;
    var before, t := AfterDescription(m, v), CdmaWrites(tel.operatorAlpha, tel.operatorNumeric, tel.cdmaSub);
    VariantWritesInOrder(m, v);
    RunLastCreation(before, t, 0);
    RunLastCreation(before, t, 1);
    RunLastCreation(before, t, 2);
    RunLastCreation(before, t, 3);
    RunLastCreation(before, t, 4);
    RunLastCreation(before, t, 5);
    TelephonyUntouchedBefore(m, v, LteOnGsmKey);
    RunUntouched(before, t, LteOnGsmKey);
  }

  /** A matched branch writes a telephony property exactly when its mode's writes do. */
  lemma VariantTouchesTelephony(v: Variant, k: string)
    requires k in OtherKeys() - {DescriptionKey}
    ensures k in Touched(VariantWrites(v)) <==> k in Touched(TelephonyWrites(v.telephony))
  {
    var p, d, t := ProductWrites(SourceOrder, v), [Override(DescriptionKey, v.description, true)], TelephonyWrites(v.telephony);
    TouchedAppend(p + d, t);
    TouchedAppend(p, d);
    ProductWritesOverrideOnly(SourceOrder, v);
    OtherKeysAreNotProductKeys();
    TouchedMembers(p, k);
    TouchedMembers(d, k);
  }

  // ----- One run of vendor_load_properties, by branch -----

  /**
    In a matched branch, each of the 24 product properties is overwritten with the
    variant's value for its attribute when it exists, and stays absent otherwise.
   */
  lemma MatchedProductProps(m: Store, si: nat, ai: nat)
    requires Branch(Get(m, BootloaderKey, "")).Matched?
    requires si < |SourceOrder| && ai < |Attributes|
    ensures ProductKey(SourceOrder[si], Attributes[ai]) in Load(m) <==> ProductKey(SourceOrder[si], Attributes[ai]) in m
    ensures ProductKey(SourceOrder[si], Attributes[ai]) in m ==>
      Load(m)[ProductKey(SourceOrder[si], Attributes[ai])]
        == AttributeValues(Variants[Branch(Get(m, BootloaderKey, "")).index])[ai]
  {
    var k := ProductKey(SourceOrder[si], Attributes[ai]);
    assert k in ProductKeys();
    ProductKeysNeverCreated(m, k);
    if k in m {
      VariantProductValue(m, Variants[Branch(Get(m, BootloaderKey, "")).index], si, ai);
    }
  }

  /** Every matched branch leaves its build description, even where there was none. */
  lemma DescriptionAlwaysSet(m: Store)
    requires Branch(Get(m, BootloaderKey, "")).Matched?
    ensures Has(Load(m), DescriptionKey, Variants[Branch(Get(m, BootloaderKey, "")).index].description)
  {
    VariantDescription(m, Variants[Branch(Get(m, BootloaderKey, "")).index]);
  }

  /**
    On an unrecognised bootloader (the empty one included) only the two GSM
    properties change; no product property and no build description is touched.
   */
  lemma UnmatchedWritesOnlyGsm(m: Store)
    requires Branch(Get(m, BootloaderKey, "")).Unmatched?
    ensures Load(m) == m[LteOnGsmKey := "1"][DefaultNetworkKey := "9"]
  {
    var w0, w1 := Set(LteOnGsmKey, "1"), Set(DefaultNetworkKey, "9");
    RunSnoc(m, [], w0);
    RunSnoc(m, [w0], w1);
    assert [] + [w0] == [w0];
    assert [w0] + [w1] == GsmWrites();
  }

  /**
    The P, R4 and V branches write the CDMA properties, with default network 10 and
    their operators (Sprint 310120, U.S. Cellular 311580, Verizon 311480); they leave
    `telephony.lteOnGsmDevice` as it was.
   */
  lemma CdmaBranches(m: Store, i: nat)
    requires Branch(Get(m, BootloaderKey, "")) == Matched(i)
    requires i == 2 || i == 3 || i == 5
    ensures Has(Load(m), DefaultNetworkKey, "10") && Has(Load(m), LteOnCdmaKey, "1")
    ensures Has(Load(m), SubscriptionTypesKey, "NV,RUIM") && Has(Load(m), CdmaSubKey, "1")
    ensures SameAt(m, Load(m), LteOnGsmKey)
    ensures i == 2 ==> Has(Load(m), OperatorAlphaKey, "Sprint") && Has(Load(m), OperatorNumericKey, "310120")
    ensures i == 3 ==> Has(Load(m), OperatorAlphaKey, "U.S. Cellular") && Has(Load(m), OperatorNumericKey, "311580")
    ensures i == 5 ==> Has(Load(m), OperatorAlphaKey, "Verizon") && Has(Load(m), OperatorNumericKey, "311480")
  {
    VariantCdma(m, Variants[i]);
  }

  /**
    The other four branches and the `else` branch make only the two GSM telephony
    writes, with default network 9; the CDMA properties keep whatever they held.
   */
  lemma GsmBranches(m: Store)
    requires Branch(Get(m, BootloaderKey, "")) !in {Matched(2), Matched(3), Matched(5)}
    ensures Has(Load(m), LteOnGsmKey, "1") && Has(Load(m), DefaultNetworkKey, "9")
    ensures forall k :: k in CdmaOnlyKeys() ==> SameAt(m, Load(m), k)
  {
    var br := Branch(Get(m, BootloaderKey, ""));
    if br.Matched? {
      VariantGsm(m, Variants[br.index]);
    } else {
      UnmatchedWritesOnlyGsm(m);
    }
  }

  /** The properties each telephony mode writes. */
  function TelephonyKeys(t: Telephony): set<string> {
    match t
    case Gsm => {LteOnGsmKey, DefaultNetworkKey}
    case Cdma(_, _, _) => CdmaOnlyKeys() + {DefaultNetworkKey}
  }

  /** Each telephony call writes exactly the properties of its mode. */
  lemma TelephonyTouched(t: Telephony)
    ensures Touched(TelephonyWrites(t)) == TelephonyKeys(t)
  {
    var ws := TelephonyWrites(t);
    forall n | 0 < n <= |ws| ensures Touched(ws[..n]) == Touched(ws[..n - 1]) + {ws[n - 1].key} {
      assert ws[..n][..n - 1] == ws[..n - 1];
    }
    assert Touched(ws[..0]) == {};
    assert Touched(ws[..1]) == {ws[0].key};
    assert Touched(ws[..2]) == {ws[0].key, ws[1].key};
    if t.Cdma? {
      assert Touched(ws[..3]) == {ws[0].key, ws[1].key, ws[2].key};
      assert Touched(ws[..4]) == {ws[0].key, ws[1].key, ws[2].key, ws[3].key};
      assert Touched(ws[..5]) == {ws[0].key, ws[1].key, ws[2].key, ws[3].key, ws[4].key};
      assert Touched(ws[..6]) == {ws[0].key, ws[1].key, ws[2].key, ws[3].key, ws[4].key, ws[5].key};
    }
    assert ws[..|ws|] == ws;
  }

  /** The telephony mode a bootloader selects: the variant's, or GSM when none matches. */
  function BranchTelephony(bootloader: string): Telephony {
    match Branch(bootloader)
    case Matched(i) => Variants[i].telephony
    case Unmatched => Gsm
  }

  /**
    Every run writes exactly one telephony mode: `telephony.lteOnGsmDevice` or
    `telephony.lteOnCdmaDevice`, never both, and the CDMA properties come all together
    with the latter.
   */
  lemma TelephonyExclusive(bootloader: string)
    ensures LteOnGsmKey in Touched(LoadWrites(bootloader)) <==> LteOnCdmaKey !in Touched(LoadWrites(bootloader))
    ensures LteOnGsmKey in Touched(LoadWrites(bootloader)) ==>
      forall k :: k in CdmaOnlyKeys() ==> k !in Touched(LoadWrites(bootloader))
    ensures LteOnCdmaKey in Touched(LoadWrites(bootloader)) ==> CdmaOnlyKeys() <= Touched(LoadWrites(bootloader))
  {
    var ws, t := LoadWrites(bootloader), BranchTelephony(bootloader);
    TelephonyTouched(t);
    forall k | k in OtherKeys() - {DescriptionKey}
      ensures k in Touched(ws) <==> k in TelephonyKeys(t)
    {
      if Branch(bootloader).Matched? {
        VariantTouchesTelephony(Variants[Branch(bootloader).index], k);
      }
    }
  }

  // ----- Particular boot-time stores -----

  /** A T-Mobile bootloader id selects the `trltetmo` branch and its description. */
  lemma TmobileBootloader(m: Store)
    requires Get(m, BootloaderKey, "") == "N910TUVU2EQI2"
    ensures Branch(Get(m, BootloaderKey, "")) == Matched(4)
    ensures Has(Load(m), DescriptionKey, "trltetmo-user 6.0.1 MMB29M N910TUVU2EQI2 release-keys")
    ensures Has(Load(m), LteOnGsmKey, "1") && Has(Load(m), DefaultNetworkKey, "9")
  {
    assert Prefixes[4] <= "N910TUVU2EQI2";
    BranchIsOnlyMatch("N910TUVU2EQI2", 4);
    DescriptionAlwaysSet(m);
    GsmBranches(m);
  }

  /** A Sprint bootloader id selects the `trltespr` branch and its CDMA operator. */
  lemma SprintBootloader(m: Store)
    requires Get(m, BootloaderKey, "") == "N910PVPU5DQI5"
    ensures Branch(Get(m, BootloaderKey, "")) == Matched(2)
    ensures Has(Load(m), OperatorAlphaKey, "Sprint") && Has(Load(m), OperatorNumericKey, "310120")
    ensures Has(Load(m), DefaultNetworkKey, "10")
  {
    assert Prefixes[2] <= "N910PVPU5DQI5";
    BranchIsOnlyMatch("N910PVPU5DQI5", 2);
    CdmaBranches(m, 2);
  }

  /** Without `ro.bootloader`, or with it empty, only the GSM properties are written. */
  lemma MissingBootloader(m: Store)
    requires Get(m, BootloaderKey, "") == ""
    ensures Load(m) == m[LteOnGsmKey := "1"][DefaultNetworkKey := "9"]
  {
    BranchIsFirstMatch("");
    assert forall j :: 0 <= j < |Prefixes| ==> |Prefixes[j]| > 0;
    UnmatchedWritesOnlyGsm(m);
  }

  /**
    A store that holds nothing but `ro.bootloader` gets no product property from any
    branch, because `set_ro_product_prop` never adds one.
   */
  lemma BareStoreGetsNoProductProps(bootloader: string, k: string)
    requires k in ProductKeys()
    ensures k !in Load(map[BootloaderKey := bootloader])
  {
    OtherKeysAreNotProductKeys();
    ProductKeysNeverCreated(map[BootloaderKey := bootloader], k);
  }
}
