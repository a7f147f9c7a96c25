/**
 * The decision core of the `AppHelper` object: the vendor market table and its
 * case-insensitive lookup, and the two launch operations `openAppSettingDetail` and
 * `openAppMarket`, with the device brand, the activity's package name and the outcome
 * of `startActivity` given as inputs.
 */
module AppHelper {
  import opened Options
  import opened Ascii
  import opened Android

  /** The prefix of the market URI that names an app's listing. */
  const MarketDetailsPrefix: string := "market://details?id="

  // ---------------------------------------------------------------------------
  // Vendor market lookup
  // ---------------------------------------------------------------------------

  /** Entry `i` of `table` has a key equal to `brand` ignoring case. */
  predicate KeyMatches(table: seq<(string, string)>, i: int, brand: string) {
    0 <= i < |table| && EqualsIgnoreCase(brand, table[i].0)
  }

  /** Entry `i` is the first entry of `table` whose key matches `brand`. */
  predicate FirstMatchAt(table: seq<(string, string)>, i: int, brand: string) {
    KeyMatches(table, i, brand) && forall j :: 0 <= j < i ==> !KeyMatches(table, j, brand)
  }

  /** No two keys of `table` are equal ignoring case. */
  predicate KeysDistinctIgnoringCase(table: seq<(string, string)>) {
    forall i, j :: 0 <= i < j < |table| ==> !EqualsIgnoreCase(table[i].0, table[j].0)
  }

  /**
   * `mMarketPackageNameMap`: device brand to the package of that vendor's market app, in
   * declaration order (the iteration order of `mapOf`). Its eight brands are pairwise
   * distinct ignoring case.
   */
  function MarketPackageNames(): (table: seq<(string, string)>)
    ensures |table| == 8
    ensures KeysDistinctIgnoringCase(table)
  {
    var table := [
      ("Huawei", "com.huawei.appmarket"),
      ("Xiaomi", "com.xiaomi.market"),
      ("OPPO", "com.oppo.market"),
      ("vivo", "com.bbk.appstore"),
      ("samsung", "com.sec.android.app.samsungapps"),
      ("Meizu", "com.meizu.mstore"),
      ("Lenovo", "com.lenovo.leos.appstore"),
      ("google", "com.android.vending")
    ];
    KeysDistinctByInitials(table, "hxovsmlg");
    table
  }

  /** The value of the first entry whose key equals `brand` ignoring case, scanning in table order. */
  function Lookup(table: seq<(string, string)>, brand: string): (r: Option<string>)
    ensures r.Some? ==> exists i :: KeyMatches(table, i, brand) && table[i].1 == r.value
  {
    if table == [] then None
    else if EqualsIgnoreCase(brand, table[0].0) then
      assert KeyMatches(table, 0, brand);
      Some(table[0].1)
    else
      var rest := Lookup(table[1..], brand);
      assert forall i :: KeyMatches(table[1..], i, brand) ==> KeyMatches(table, i + 1, brand) && table[1..][i] == table[i + 1];
      rest
  }

  /** `getAccordWithPhoneMarketPackage`: the scan over the table's keys, with the brand as input. */
  method AccordWithPhoneMarketPackage(brand: string) returns (r: Option<string>)
    ensures r == Lookup(MarketPackageNames(), brand)
  {
    var table := MarketPackageNames();
    for i := 0 to |table|
      invariant Lookup(table[i..], brand) == Lookup(table, brand)
    {
      if EqualsIgnoreCase(brand, table[i].0) {
        return Some(table[i].1);
      }
      assert table[i..][1..] == table[i + 1..];
    }
    return None;
  }

  /** The lookup yields `v` exactly when the first matching entry has value `v`. */
  lemma {:induction false} LookupSomeIff(table: seq<(string, string)>, brand: string, v: string)
    ensures Lookup(table, brand) == Some(v) <==> exists i :: FirstMatchAt(table, i, brand) && table[i].1 == v
  {
    if table != [] {
      var tail := table[1..];
      LookupSomeIff(tail, brand, v);
      if EqualsIgnoreCase(brand, table[0].0) {
        assert FirstMatchAt(table, 0, brand);
      } else {
        if Lookup(table, brand) == Some(v) {
          var k :| FirstMatchAt(tail, k, brand) && tail[k].1 == v;
          assert FirstMatchAt(table, k + 1, brand) by {
            forall j | 0 <= j < k + 1 ensures !KeyMatches(table, j, brand) {
              if j > 0 { assert !KeyMatches(tail, j - 1, brand); }
            }
          }
        }
        if exists i :: FirstMatchAt(table, i, brand) && table[i].1 == v {
          var i :| FirstMatchAt(table, i, brand) && table[i].1 == v;
          assert i > 0 by { assert !KeyMatches(table, 0, brand); }
          assert FirstMatchAt(tail, i - 1, brand) by {
            forall j | 0 <= j < i - 1 ensures !KeyMatches(tail, j, brand) {
              assert !KeyMatches(table, j + 1, brand);
            }
          }
        }
      }
    }
  }

  /** The lookup yields nothing exactly when no key equals `brand` ignoring case. */
  lemma {:induction false} LookupNoneIff(table: seq<(string, string)>, brand: string)
    ensures Lookup(table, brand) == None <==> forall i :: 0 <= i < |table| ==> !KeyMatches(table, i, brand)
  {
    if table != [] {
      var tail := table[1..];
      LookupNoneIff(tail, brand);
      if !EqualsIgnoreCase(brand, table[0].0) {
        forall i | 0 < i < |table| ensures KeyMatches(table, i, brand) == KeyMatches(tail, i - 1, brand) {
          assert table[i] == tail[i - 1];
        }
        forall j | 0 <= j < |tail| ensures KeyMatches(tail, j, brand) == KeyMatches(table, j + 1, brand) {
          assert table[j + 1] == tail[j];
        }
        assert !KeyMatches(table, 0, brand);
      } else {
        assert KeyMatches(table, 0, brand);
      }
    }
  }

  /** Brands that differ only in letter case give the same lookup result. */
  lemma {:induction false} LookupCaseInsensitive(table: seq<(string, string)>, b1: string, b2: string)
    requires EqualsIgnoreCase(b1, b2)
    ensures Lookup(table, b1) == Lookup(table, b2)
  {
    if table != [] {
      var key := table[0].0;
      EqualsIgnoreCaseSymmetric(b1, b2);
      EqualsIgnoreCaseTransitive(b1, b2, key);
      EqualsIgnoreCaseTransitive(b2, b1, key);
      LookupCaseInsensitive(table[1..], b1, b2);
    }
  }

  /** With distinct keys the lookup yields `v` exactly when some entry `(k, v)` has `k` equal to `brand` ignoring case. */
  lemma LookupDistinctIff(table: seq<(string, string)>, brand: string, v: string)
    requires KeysDistinctIgnoringCase(table)
    ensures Lookup(table, brand) == Some(v) <==> exists i :: KeyMatches(table, i, brand) && table[i].1 == v
  {
    LookupSomeIff(table, brand, v);
    if exists i :: KeyMatches(table, i, brand) && table[i].1 == v {
      var i :| KeyMatches(table, i, brand) && table[i].1 == v;
      forall j | 0 <= j < i ensures !KeyMatches(table, j, brand) {
        if KeyMatches(table, j, brand) {
          EqualsIgnoreCaseSymmetric(brand, table[j].0);
          EqualsIgnoreCaseTransitive(table[j].0, brand, table[i].0);
          assert false;
        }
      }
      assert FirstMatchAt(table, i, brand);
    }
  }

  /**
   * With distinct keys the scan order does not matter: any table holding the same
   * entries gives the same result for every brand.
   */
  lemma LookupOrderIrrelevant(t1: seq<(string, string)>, t2: seq<(string, string)>, brand: string)
    requires KeysDistinctIgnoringCase(t1)
    requires forall e :: e in t1 <==> e in t2
    ensures Lookup(t1, brand) == Lookup(t2, brand)
  {
    LookupNoneIff(t1, brand);
    LookupNoneIff(t2, brand);
    match Lookup(t1, brand)
    case None =>
      forall j | 0 <= j < |t2| ensures !KeyMatches(t2, j, brand) {
        assert t2[j] in t1;
        var k :| 0 <= k < |t1| && t1[k] == t2[j];
        assert !KeyMatches(t1, k, brand);
      }
    case Some(v) =>
      LookupDistinctIff(t1, brand, v);
      var i :| KeyMatches(t1, i, brand) && t1[i].1 == v;
      assert t1[i] in t2;
      var j :| 0 <= j < |t2| && t2[j] == t1[i];
      assert KeyMatches(t2, j, brand);
      var w := Lookup(t2, brand).value;
      LookupSomeIff(t2, brand, w);
      var m :| FirstMatchAt(t2, m, brand) && t2[m].1 == w;
      assert t2[m] in t1;
      var k :| 0 <= k < |t1| && t1[k] == t2[m];
      if k != i {
        EqualsIgnoreCaseSymmetric(brand, t1[k].0);
        EqualsIgnoreCaseTransitive(t1[k].0, brand, t1[i].0);
        EqualsIgnoreCaseSymmetric(t1[k].0, t1[i].0);
        assert false;
      }
  }

  /** Keys whose folded first letters are pairwise different are pairwise distinct ignoring case. */
  lemma KeysDistinctByInitials(table: seq<(string, string)>, initials: seq<char>)
    requires |initials| == |table|
    requires forall i :: 0 <= i < |table| ==> |table[i].0| > 0 && LowerChar(table[i].0[0]) == initials[i]
    requires forall i, j :: 0 <= i < j < |initials| ==> initials[i] != initials[j]
    ensures KeysDistinctIgnoringCase(table)
  {
    forall i, j | 0 <= i < j < |table| ensures !EqualsIgnoreCase(table[i].0, table[j].0) {
      EqualsIgnoreCaseFirstChar(table[i].0, table[j].0);
    }
  }

  /** Each brand of the vendor table, in any letter case, finds its own market package. */
  lemma MarketLookupKnownBrand(i: int, brand: string)
    requires 0 <= i < |MarketPackageNames()|
    requires EqualsIgnoreCase(brand, MarketPackageNames()[i].0)
    ensures Lookup(MarketPackageNames(), brand) == Some(MarketPackageNames()[i].1)
  {
    LookupDistinctIff(MarketPackageNames(), brand, MarketPackageNames()[i].1);
  }

  /** Each brand of the vendor table, spelled as declared, finds its own market package. */
  lemma MarketLookupExactKey(i: int)
    requires 0 <= i < |MarketPackageNames()|
    ensures Lookup(MarketPackageNames(), MarketPackageNames()[i].0) == Some(MarketPackageNames()[i].1)
  {
    EqualsIgnoreCaseReflexive(MarketPackageNames()[i].0);
    MarketLookupKnownBrand(i, MarketPackageNames()[i].0);
  }

  /** Lower-casing the brand first does not change the lookup, for any table. */
  lemma LookupFoldedBrand(table: seq<(string, string)>, brand: string)
    ensures Lookup(table, Fold(brand)) == Lookup(table, brand)
  {
    EqualsIgnoreCaseFold(brand);
    LookupCaseInsensitive(table, brand, Fold(brand));
  }

  /** On the vendor table, the lookup yields `v` exactly when some entry `(k, v)` has `k` equal to `brand` ignoring case. */
  lemma MarketLookupIff(brand: string, v: string)
    ensures Lookup(MarketPackageNames(), brand) == Some(v)
        <==> exists i :: KeyMatches(MarketPackageNames(), i, brand) && MarketPackageNames()[i].1 == v
  {
    LookupDistinctIff(MarketPackageNames(), brand, v);
  }

  /** "HUAWEI", "huawei" and "Huawei" all find Huawei's market. */
  lemma HuaweiInAnyCase()
    ensures Lookup(MarketPackageNames(), "HUAWEI") == Some("com.huawei.appmarket")
    ensures Lookup(MarketPackageNames(), "huawei") == Some("com.huawei.appmarket")
    ensures Lookup(MarketPackageNames(), "Huawei") == Some("com.huawei.appmarket")
  {
    assert EqualsIgnoreCase("HUAWEI", "Huawei");
    assert EqualsIgnoreCase("huawei", "Huawei");
  }

  /** A brand outside the table, and the empty brand, find no market. */
  lemma UnknownBrandFindsNoMarket()
    ensures Lookup(MarketPackageNames(), "Nokia") == None
    ensures Lookup(MarketPackageNames(), "") == None
  {
    LookupNoneIff(MarketPackageNames(), "Nokia");
    LookupNoneIff(MarketPackageNames(), "");
    var t := MarketPackageNames();
    forall i | 0 <= i < |t| ensures !KeyMatches(t, i, "Nokia") {
      EqualsIgnoreCaseFirstChar("Nokia", t[i].0);
    }
  }

  // ---------------------------------------------------------------------------
  // openAppSettingDetail
  // ---------------------------------------------------------------------------

  /** `applicationPackageName.ifEmpty { activity.packageName }`. */
  function PackageOrOwn(applicationPackageName: string, ownPackage: string): (p: string)
    ensures applicationPackageName != "" ==> p == applicationPackageName
    ensures applicationPackageName == "" ==> p == ownPackage
  {
    if applicationPackageName != "" then applicationPackageName else ownPackage
  }

  /** The intent that opens the "App info" settings screen of the target package. */
  function SettingDetailIntent(ownPackage: string, applicationPackageName: string): (intent: Intent)
    ensures intent.action == ACTION_APPLICATION_DETAILS_SETTINGS
    ensures intent.package == None
    ensures intent.data == Some(OpaqueUri("package", PackageOrOwn(applicationPackageName, ownPackage), None))
    ensures intent.flags == FLAG_ACTIVITY_NEW_TASK
  {
    var packageName := PackageOrOwn(applicationPackageName, ownPackage);
    NewIntent(ACTION_APPLICATION_DETAILS_SETTINGS)
      .SetData(OpaqueUri("package", packageName, None))
      .AddFlags(FLAG_ACTIVITY_NEW_TASK)
  }

  /**
   * `openAppSettingDetail(activity, applicationPackageName)`, where `outcome` is what
   * `startActivity` does with the intent. Every runtime failure of the launch is caught.
   */
  function OpenAppSettingDetail(activity: Option<Activity>, applicationPackageName: string, outcome: LaunchOutcome): (call: Call)
    ensures activity.None? ==> call == Call(Returned(false), None)
    ensures activity.Some? ==>
      call.launched == Some(SettingDetailIntent(activity.value.packageName, applicationPackageName))
    ensures call.completion.Returned?
    ensures call.completion.value <==> activity.Some? && outcome == Started
  {
    match activity
    case None => Call(Returned(false), None)
    case Some(host) =>
      var intent := SettingDetailIntent(host.packageName, applicationPackageName);
      match outcome
      case Started => Call(Returned(true), Some(intent))
      case Raised(_) => Call(Returned(false), Some(intent))
  }

  // ---------------------------------------------------------------------------
  // openAppMarket
  // ---------------------------------------------------------------------------

  /**
   * The market-app constraint of the market intent: the explicit target if there is one,
   * else the vendor market of the brand when `isOpenSystemMarket` is set, else none.
   */
  function MarketConstraint(targetMarketPackageName: string, isOpenSystemMarket: bool, brand: string): (p: Option<string>)
    ensures targetMarketPackageName != "" ==> p == Some(targetMarketPackageName)
    ensures targetMarketPackageName == "" && !isOpenSystemMarket ==> p == None
    ensures targetMarketPackageName == "" && isOpenSystemMarket ==> p == Lookup(MarketPackageNames(), brand)
  {
    if targetMarketPackageName != "" then Some(targetMarketPackageName)
    else if isOpenSystemMarket then Lookup(MarketPackageNames(), brand)
    else None
  }

  /** The intent that opens the market listing, built in the order the `apply` block sets its fields. */
  function MarketIntent(ownPackage: string, applicationPackageName: string, targetMarketPackageName: string,
                        isOpenSystemMarket: bool, brand: string): (intent: Intent)
    ensures intent.action == ACTION_VIEW
    ensures intent.package == MarketConstraint(targetMarketPackageName, isOpenSystemMarket, brand)
    ensures intent.data == Some(StringUri(MarketDetailsPrefix + PackageOrOwn(applicationPackageName, ownPackage)))
    ensures intent.flags == FLAG_ACTIVITY_NEW_TASK
  {
    var base := NewIntent(ACTION_VIEW);
    var constrained :=
      if targetMarketPackageName != "" then base.SetPackage(Some(targetMarketPackageName))
      else if isOpenSystemMarket then base.SetPackage(Lookup(MarketPackageNames(), brand))
      else base;
    var withData :=
      if applicationPackageName != "" then constrained.SetData(StringUri(MarketDetailsPrefix + applicationPackageName))
      else constrained.SetData(StringUri(MarketDetailsPrefix + ownPackage));
    withData.AddFlags(FLAG_ACTIVITY_NEW_TASK)
  }

  /**
   * `openAppMarket(activity, applicationPackageName, targetMarketPackageName, isOpenSystemMarket)`
   * on a device whose `Build.BRAND` is `brand`, where `outcome` is what `startActivity` does
   * with the intent. Only `ActivityNotFoundException` is caught; any other runtime failure
   * escapes to the caller.
   */
  function OpenAppMarket(activity: Option<Activity>, applicationPackageName: string, targetMarketPackageName: string,
                         isOpenSystemMarket: bool, brand: string, outcome: LaunchOutcome): (call: Call)
    ensures activity.None? ==> call == Call(Returned(false), None)
    ensures activity.Some? ==>
      call.launched == Some(MarketIntent(activity.value.packageName, applicationPackageName,
                                         targetMarketPackageName, isOpenSystemMarket, brand))
    ensures call.completion == Returned(true) <==> activity.Some? && outcome == Started
    ensures call.completion == Returned(false) <==> activity.None? || outcome == Raised(ActivityNotFound)
    ensures call.completion.Threw? <==> activity.Some? && outcome == Raised(OtherRuntimeFailure)
    ensures call.completion.Threw? ==> call.completion.failure == OtherRuntimeFailure
  {
    match activity
    case None => Call(Returned(false), None)
    case Some(host) =>
      var intent := MarketIntent(host.packageName, applicationPackageName, targetMarketPackageName,
                                 isOpenSystemMarket, brand);
      match outcome
      case Started => Call(Returned(true), Some(intent))
      case Raised(ActivityNotFound) => Call(Returned(false), Some(intent))
      case Raised(OtherRuntimeFailure) => Call(Threw(OtherRuntimeFailure), Some(intent))
  }

  // ---------------------------------------------------------------------------
  // The calls with Kotlin's default arguments
  // ---------------------------------------------------------------------------

  /** `openAppSettingDetail(activity)`: `applicationPackageName` at its default `""`, so the activity's own package. */
  function OpenAppSettingDetailByDefault(activity: Option<Activity>, outcome: LaunchOutcome): (call: Call)
    ensures activity.Some? ==>
      call.launched.Some? && call.launched.value.data == Some(OpaqueUri("package", activity.value.packageName, None))
    ensures call.completion == Returned(activity.Some? && outcome == Started)
  {
    OpenAppSettingDetail(activity, "", outcome)
  }

  /**
   * `openAppMarket(activity)`: `applicationPackageName` and `targetMarketPackageName` at
   * their default `""`, `isOpenSystemMarket` at its default `true`. The listing is the
   * activity's own, and the intent is constrained to the brand's vendor market if there is one.
   */
  function OpenAppMarketByDefault(activity: Option<Activity>, brand: string, outcome: LaunchOutcome): (call: Call)
    ensures activity.Some? ==>
      call.launched.Some?
      && call.launched.value.package == Lookup(MarketPackageNames(), brand)
      && call.launched.value.data == Some(StringUri(MarketDetailsPrefix + activity.value.packageName))
    ensures call.completion == Returned(true) <==> activity.Some? && outcome == Started
  {
    OpenAppMarket(activity, "", "", true, brand, outcome)
  }

  // ---------------------------------------------------------------------------
  // Properties relating several calls
  // ---------------------------------------------------------------------------

  /** An explicit target market wins over `isOpenSystemMarket` and the brand. */
  lemma TargetMarketOverridesVendor(activity: Option<Activity>, applicationPackageName: string, targetMarketPackageName: string,
                                    s1: bool, b1: string, s2: bool, b2: string, outcome: LaunchOutcome)
    requires targetMarketPackageName != ""
    ensures OpenAppMarket(activity, applicationPackageName, targetMarketPackageName, s1, b1, outcome)
         == OpenAppMarket(activity, applicationPackageName, targetMarketPackageName, s2, b2, outcome)
  {
  }

  /** The market call depends on the brand only up to letter case. */
  lemma OpenAppMarketBrandCaseInsensitive(activity: Option<Activity>, applicationPackageName: string, targetMarketPackageName: string,
                                          isOpenSystemMarket: bool, b1: string, b2: string, outcome: LaunchOutcome)
    requires EqualsIgnoreCase(b1, b2)
    ensures OpenAppMarket(activity, applicationPackageName, targetMarketPackageName, isOpenSystemMarket, b1, outcome)
         == OpenAppMarket(activity, applicationPackageName, targetMarketPackageName, isOpenSystemMarket, b2, outcome)
  {
    LookupCaseInsensitive(MarketPackageNames(), b1, b2);
  }

  /** Without a target, `isOpenSystemMarket` on a listed brand (any case) constrains the intent to that vendor's market. */
  lemma SystemMarketOfKnownBrand(host: Activity, applicationPackageName: string, i: int, brand: string, outcome: LaunchOutcome)
    requires 0 <= i < |MarketPackageNames()|
    requires EqualsIgnoreCase(brand, MarketPackageNames()[i].0)
    ensures OpenAppMarket(Some(host), applicationPackageName, "", true, brand, outcome).launched.value.package
         == Some(MarketPackageNames()[i].1)
  {
    MarketLookupKnownBrand(i, brand);
  }

  /** The two operations differ only in what they do with a runtime failure other than "not found". */
  lemma FailureHandlingDiffers(host: Activity, applicationPackageName: string, targetMarketPackageName: string,
                               isOpenSystemMarket: bool, brand: string)
    ensures OpenAppSettingDetail(Some(host), applicationPackageName, Raised(OtherRuntimeFailure)).completion == Returned(false)
    ensures OpenAppMarket(Some(host), applicationPackageName, targetMarketPackageName, isOpenSystemMarket, brand,
                          Raised(OtherRuntimeFailure)).completion == Threw(OtherRuntimeFailure)
    ensures OpenAppSettingDetail(Some(host), applicationPackageName, Raised(ActivityNotFound)).completion
         == OpenAppMarket(Some(host), applicationPackageName, targetMarketPackageName, isOpenSystemMarket, brand,
                          Raised(ActivityNotFound)).completion
  {
  }

}
