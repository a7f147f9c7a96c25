/**
 * The pieces of the Android platform that AppHelper touches, as plain values: the
 * `Intent` it builds, the `Uri` it attaches, the `Activity` it launches from, and the
 * outcome of `Activity.startActivity`, which the platform decides and the model takes
 * as an input.
 */
module Android {
  import opened Options

  /** `Intent.ACTION_VIEW`. */
  const ACTION_VIEW: string := "android.intent.action.VIEW"

  /** `Settings.ACTION_APPLICATION_DETAILS_SETTINGS`. */
  const ACTION_APPLICATION_DETAILS_SETTINGS: string := "android.settings.APPLICATION_DETAILS_SETTINGS"

  /** `Intent.FLAG_ACTIVITY_NEW_TASK`. */
  const FLAG_ACTIVITY_NEW_TASK: bv32 := 0x1000_0000

  /**
   * A URI as the two factories used here make it: `Uri.parse(text)` keeps the text as
   * given, `Uri.fromParts(scheme, ssp, fragment)` keeps the three parts.
   */
  datatype Uri =
    | StringUri(text: string)
    | OpaqueUri(scheme: string, schemeSpecificPart: string, fragment: Option<string>)

  /** The fields of an `Intent` that AppHelper sets; `package` is the market-app constraint. */
  datatype Intent = Intent(action: string, package: Option<string>, data: Option<Uri>, flags: bv32)
  {
    /** `intent.package = p` (`setPackage`); `None` removes the constraint. */
    function SetPackage(p: Option<string>): (r: Intent)
      ensures r.package == p
      ensures r.action == action && r.data == data && r.flags == flags
    {
      this.(package := p)
    }

    /** `intent.data = u` (`setData`). */
    function SetData(u: Uri): (r: Intent)
      ensures r.data == Some(u)
      ensures r.action == action && r.package == package && r.flags == flags
    {
      this.(data := Some(u))
    }

    /** `intent.addFlags(f)`: the new flags are the old ones with the bits of `f` added. */
    function AddFlags(f: bv32): (r: Intent)
      ensures r.flags == flags | f
      ensures r.action == action && r.package == package && r.data == data
    {
      this.(flags := flags | f)
    }
  }

  /** `Intent(action)`: no package constraint, no data, no flags. */
  function NewIntent(action: string): (r: Intent)
    ensures r.action == action && r.package == None && r.data == None && r.flags == 0
  {
    Intent(action, None, None, 0)
  }

  /** The host activity; only its own package name is used. */
  datatype Activity = Activity(packageName: string)

  /** The runtime exceptions `startActivity` may raise, as far as AppHelper tells them apart. */
  datatype RuntimeFailure =
    | ActivityNotFound      // `ActivityNotFoundException`
    | OtherRuntimeFailure   // any other `RuntimeException`, e.g. `SecurityException`

  /** What `startActivity` does with an intent: starts it or raises. */
  datatype LaunchOutcome = Started | Raised(failure: RuntimeFailure)

  /** How a call of an AppHelper operation ends: it returns a Boolean or an exception escapes. */
  datatype Completion = Returned(value: bool) | Threw(failure: RuntimeFailure)

  /** The end of a call and the intent it passed to `startActivity`, if it got that far. */
  datatype Call = Call(completion: Completion, launched: Option<Intent>)

}
