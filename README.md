# AppHelper launch logic, modelled in Dafny

`AppHelper` is the Kotlin helper object of the `android_package_installer` plugin. It
opens two kinds of screens on an Android device:

- `openAppSettingDetail` opens the system "App info" settings screen of a package.
- `openAppMarket` opens an app's listing in an app market. The market app is chosen in
  this order: an explicit target market, else the device vendor's own market (when
  `isOpenSystemMarket` is set), else none, and the system then lets the user choose.

The vendor's market comes from a fixed table of eight brand-to-package pairs. The table
is scanned in declaration order for the first brand equal to `Build.BRAND`, ignoring
letter case.

The model is a set of pure functions over plain records. The platform's inputs are
parameters:

- the device brand (`Build.BRAND`);
- the activity, as `Option<Activity>` (`None` is a null activity), carrying its own
  package name;
- the outcome of `startActivity`: `Started`, `Raised(ActivityNotFound)` or
  `Raised(OtherRuntimeFailure)`.

Every Kotlin argument is an explicit parameter. The calls with Kotlin's default
arguments (`applicationPackageName = ""`, `targetMarketPackageName = ""`,
`isOpenSystemMarket = true`) are `OpenAppSettingDetailByDefault` and
`OpenAppMarketByDefault`.

Each operation returns a `Call` record with two parts:

- how the call ends: `Returned(bool)`, or `Threw(failure)` when an exception escapes;
- the intent handed to `startActivity`, or `None` when the launch was never attempted.

The brand scan, as a loop, is the method `AccordWithPhoneMarketPackage`. It is proved
equal to the recursive first-match function `Lookup`, and the table's properties are
proved as lemmas about `Lookup`.

Files:

- `options.dfy`: `Option`, for Kotlin's nullable values.
- `ascii.dfy`: case-insensitive string equality. It compares character by character, as
  `equals(…, ignoreCase = true)` does on the JVM, with ASCII case mapping. It is proved
  equal to equality of the lower-cased strings, and to be an equivalence.
- `android.dfy`: the `Intent`, `Uri` and `Activity` records, the launch outcome and the
  Android constants used.
- `app_helper.dfy`: the table, the lookup, the two operations and their properties.

Where the documentation and the code disagree, the model follows the code. The doc
comment of `openAppMarket` (`AppHelper.kt:67`) says that a failure returns `false`. But `openAppMarket` catches only `ActivityNotFoundException` (`AppHelper.kt:96`), so any
other runtime failure, such as a `SecurityException`, escapes to its caller. The model keeps this as
`Threw(OtherRuntimeFailure)`. `openAppSettingDetail` catches every `RuntimeException`
(`AppHelper.kt:50`), so it always returns a Boolean.

## Model

| member | source | states |
|---|---|---|
| `Android.NewIntent` | android/src/main/kotlin/com/android_package_installer/AppHelper.kt:81 | `Intent(action)` has that action, no package constraint, no data and no flags |
| `Android.Intent.SetPackage` | android/src/main/kotlin/com/android_package_installer/AppHelper.kt:82-86 | `package = p` sets the market constraint to `p` (unset for `null`) and leaves action, data and flags as they were |
| `Android.Intent.SetData` | android/src/main/kotlin/com/android_package_installer/AppHelper.kt:87-91 | `data = u` sets the data URI to `u` and leaves action, package and flags as they were |
| `Android.Intent.AddFlags` | android/src/main/kotlin/com/android_package_installer/AppHelper.kt:92 | `addFlags(f)` adds the bits of `f` to the flags and leaves the other fields as they were |
| `Ascii.CharEqualsIgnoreCase` | android/src/main/kotlin/com/android_package_installer/AppHelper.kt:127 | the per-character test of `equals(…, ignoreCase = true)` accepts two characters exactly when their lower-case forms agree |
| `Ascii.EqualsIgnoreCase` | android/src/main/kotlin/com/android_package_installer/AppHelper.kt:127 | `brand.equals(key, ignoreCase = true)` holds exactly when both strings have the same length and agree position by position on lower-case forms |
| `Ascii.EqualsIgnoreCaseIffFoldEqual` | android/src/main/kotlin/com/android_package_installer/AppHelper.kt:127 | the brand comparison `equals(key, ignoreCase = true)` holds exactly when both strings lower-case to the same string |
| `Ascii.EqualsIgnoreCaseReflexive` | android/src/main/kotlin/com/android_package_installer/AppHelper.kt:127 | every brand equals itself ignoring case |
| `Ascii.EqualsIgnoreCaseSymmetric` | android/src/main/kotlin/com/android_package_installer/AppHelper.kt:127 | the brand comparison is symmetric |
| `Ascii.EqualsIgnoreCaseTransitive` | android/src/main/kotlin/com/android_package_installer/AppHelper.kt:127 | the brand comparison is transitive |
| `Ascii.EqualsIgnoreCaseFold` | android/src/main/kotlin/com/android_package_installer/AppHelper.kt:127 | every string equals its lower-cased form ignoring case |
| `Ascii.EqualsIgnoreCaseFirstChar` | android/src/main/kotlin/com/android_package_installer/AppHelper.kt:127 | strings equal ignoring case begin with the same letter, up to case |
| `AppHelper.Lookup` | android/src/main/kotlin/com/android_package_installer/AppHelper.kt:125-132 | the first-match scan returns only a value whose key equals the brand ignoring case |
| `AppHelper.AccordWithPhoneMarketPackage` | android/src/main/kotlin/com/android_package_installer/AppHelper.kt:125-132 | the loop over the table's keys, with its early return, yields the first-match lookup of the brand in the vendor table |
| `AppHelper.LookupSomeIff` | android/src/main/kotlin/com/android_package_installer/AppHelper.kt:126-130 | the lookup yields `v` exactly when the first entry whose key equals the brand ignoring case has value `v` |
| `AppHelper.LookupNoneIff` | android/src/main/kotlin/com/android_package_installer/AppHelper.kt:126-131 | the lookup yields nothing (`null`) exactly when no key equals the brand ignoring case |
| `AppHelper.LookupCaseInsensitive` | android/src/main/kotlin/com/android_package_installer/AppHelper.kt:127 | two brands that differ only in letter case get the same lookup result, for any table |
| `AppHelper.LookupDistinctIff` | android/src/main/kotlin/com/android_package_installer/AppHelper.kt:126-131 | when keys are distinct ignoring case, the lookup yields `v` exactly when some entry `(k, v)` has `k` equal to the brand ignoring case |
| `AppHelper.LookupOrderIrrelevant` | android/src/main/kotlin/com/android_package_installer/AppHelper.kt:126-128 | when keys are distinct ignoring case, any table with the same entries, in any order, gives the same result for every brand |
| `AppHelper.MarketPackageNames` | android/src/main/kotlin/com/android_package_installer/AppHelper.kt:20-29 | the vendor table holds the eight brand-to-market pairs in declaration order, and its brands are pairwise distinct ignoring case |
| `AppHelper.KeysDistinctByInitials` | android/src/main/kotlin/com/android_package_installer/AppHelper.kt:20-29 | keys whose lower-cased first letters are pairwise different are pairwise distinct ignoring case (the table's initials are h x o v s m l g) |
| `AppHelper.MarketLookupKnownBrand` | android/src/main/kotlin/com/android_package_installer/AppHelper.kt:20-29 | each listed brand, written in any letter case, finds its own market package |
| `AppHelper.MarketLookupExactKey` | android/src/main/kotlin/com/android_package_installer/AppHelper.kt:126-128 | each brand spelled as declared finds its own market package |
| `AppHelper.LookupFoldedBrand` | android/src/main/kotlin/com/android_package_installer/AppHelper.kt:127 | lower-casing the brand before the scan does not change the result |
| `AppHelper.MarketLookupIff` | android/src/main/kotlin/com/android_package_installer/AppHelper.kt:125-131 | on the vendor table, the lookup yields `v` exactly when some entry `(k, v)` has `k` equal to the brand ignoring case |
| `AppHelper.HuaweiInAnyCase` | android/src/main/kotlin/com/android_package_installer/AppHelper.kt:21 | "HUAWEI", "huawei" and "Huawei" all find `com.huawei.appmarket` |
| `AppHelper.UnknownBrandFindsNoMarket` | android/src/main/kotlin/com/android_package_installer/AppHelper.kt:131 | an unlisted brand ("Nokia") and the empty brand find no market |
| `AppHelper.PackageOrOwn` | android/src/main/kotlin/com/android_package_installer/AppHelper.kt:43-45 | a non-empty package name is used as given; the empty name defaults to the activity's own package |
| `AppHelper.SettingDetailIntent` | android/src/main/kotlin/com/android_package_installer/AppHelper.kt:42-47 | the settings intent has action `APPLICATION_DETAILS_SETTINGS`, no package constraint, data `package:<name>` from parts with no fragment, and exactly the `NEW_TASK` flag |
| `AppHelper.OpenAppSettingDetail` | android/src/main/kotlin/com/android_package_installer/AppHelper.kt:36-54 | a null activity gives `false` with no launch; otherwise the settings intent is launched; the call always returns a Boolean, `true` exactly when the launch starts |
| `AppHelper.MarketConstraint` | android/src/main/kotlin/com/android_package_installer/AppHelper.kt:82-86 | a non-empty target market is the constraint; else, with `isOpenSystemMarket`, the brand's vendor market (unset when the brand is unlisted); else unset |
| `AppHelper.MarketIntent` | android/src/main/kotlin/com/android_package_installer/AppHelper.kt:81-93 | the market intent has action `VIEW`, the market constraint as its package, data `market://details?id=<p>` with `p` the app package or the activity's own, and exactly the `NEW_TASK` flag |
| `AppHelper.OpenAppMarket` | android/src/main/kotlin/com/android_package_installer/AppHelper.kt:69-100 | a null activity gives `false` with no launch; otherwise the market intent is launched; the call returns `true` exactly when the launch starts, `false` exactly on not-found, and on any other runtime failure the exception escapes |
| `AppHelper.OpenAppSettingDetailByDefault` | android/src/main/kotlin/com/android_package_installer/AppHelper.kt:36 | `openAppSettingDetail(activity)` targets `package:<own package>` and returns `true` exactly when an activity is present and the launch starts |
| `AppHelper.OpenAppMarketByDefault` | android/src/main/kotlin/com/android_package_installer/AppHelper.kt:69-74 | `openAppMarket(activity)` opens the activity's own listing, constrained to the brand's vendor market (unset for an unlisted brand), and returns `true` exactly when the launch starts |
| `AppHelper.TargetMarketOverridesVendor` | android/src/main/kotlin/com/android_package_installer/AppHelper.kt:82-83 | with a non-empty target market, the call does not depend on `isOpenSystemMarket` or the brand |
| `AppHelper.OpenAppMarketBrandCaseInsensitive` | android/src/main/kotlin/com/android_package_installer/AppHelper.kt:84-85 | two brands that differ only in letter case give the same market call |
| `AppHelper.SystemMarketOfKnownBrand` | android/src/main/kotlin/com/android_package_installer/AppHelper.kt:84-85 | without a target and with `isOpenSystemMarket`, a listed brand in any case constrains the intent to that vendor's market |
| `AppHelper.FailureHandlingDiffers` | android/src/main/kotlin/com/android_package_installer/AppHelper.kt:41-98 | on a runtime failure other than not-found, the settings call returns `false` and the market call lets the exception escape; on not-found both return `false` |

## Left out

- `checkIsInMainThread`, `runOnUiThread` and the main-looper `Handler` (`AppHelper.kt:19`, `105-120`): they are about thread identity and posting work across threads, which this model has no notion of.
- `Log.e` on a null activity: logging is an output with no bearing on the result.
- `startActivity` itself: its outcome is an input to each operation. The model does not say which intents the platform can start.
- `Build.BRAND` and `activity.packageName`: they are inputs, not read from the platform.
- Case-insensitive comparison uses ASCII case mapping only. Kotlin's `equals(ignoreCase = true)` also folds non-ASCII letters. Every table key is ASCII, so this changes only brands holding non-ASCII letters whose case forms are ASCII, such as the dotless `ı` (U+0131) or the long `ſ` (U+017F), whose upper-case forms are `I` and `S`.
- `Uri.parse` and `Uri.fromParts` are kept as the text or the parts they receive. Percent-encoding of the scheme-specific part and URI parsing are not modelled.
- `Intent.setData` also clears the intent's MIME type. The model has no type field, because AppHelper never sets one.
- Exceptions raised before the launch while building the intent are not modelled. The Android calls used there do not raise on these inputs.
