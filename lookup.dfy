/**
 * The first-match lookups the client does over its configuration lists and the device list:
 * `Enumerable.First` / `FirstOrDefault` with a predicate comparing a lower-cased name.
 */
module Registry {
  import opened Wrappers
  import opened Text
  import opened Models

  /**
   * The position of the first element of xs[k..] whose key is `name`; None when there is
   * none.
   */
  function FirstIndexFrom<T>(xs: seq<T>, key: T -> string, name: string, k: nat): (r: Option<nat>)
    requires k <= |xs|
    ensures r.Some? ==> k <= r.value < |xs|
    decreases |xs| - k
  {
    if k == |xs| then None
    else if key(xs[k]) == name then Some(k)
    else FirstIndexFrom(xs, key, name, k + 1)
  }

  /** The position found has the key, every element before it from k on does not, and None means none has. */
  lemma {:induction false} FirstIndexFromIsFirst<T>(xs: seq<T>, key: T -> string, name: string, k: nat)
    requires k <= |xs|
    ensures var r := FirstIndexFrom(xs, key, name, k);
            && (r.Some? ==> key(xs[r.value]) == name && forall j :: k <= j < r.value ==> key(xs[j]) != name)
            && (r.None? ==> forall j :: k <= j < |xs| ==> key(xs[j]) != name)
    decreases |xs| - k
  {
    if k < |xs| && key(xs[k]) != name {
      FirstIndexFromIsFirst(xs, key, name, k + 1);
    }
  }

  function FirstIndex<T>(xs: seq<T>, key: T -> string, name: string): Option<nat> {
    FirstIndexFrom(xs, key, name, 0)
  }

  /** The key a screen is looked up by: its name, lower-cased. */
  function ScreenKey(s: AtmScreen): string {
    Lower(s.name)
  }

  /** The key a device is looked up by: its type, lower-cased. */
  function DeviceKey(d: Device): string {
    Lower(d.deviceType)
  }

  /**
   * `screens.First(s => s.Name.ToLower() == name)` (None where First throws) and
   * `FirstOrDefault` of the same predicate (None where it answers null).
   */
  function FindScreen(screens: seq<AtmScreen>, name: string): Option<AtmScreen> {
    var i := FirstIndex(screens, ScreenKey, name);
    if i.None? then None else Some(screens[i.value])
  }

  /** Screen i is named `name` (ignoring case) and no screen before it is. */
  predicate IsFirstScreen(screens: seq<AtmScreen>, name: string, i: int) {
    && 0 <= i < |screens| && Lower(screens[i].name) == name
    && forall j :: 0 <= j < i ==> Lower(screens[j].name) != name
  }

  /** The screen found is the first of that name; None means no screen has that name. */
  lemma FindScreenIsFirst(screens: seq<AtmScreen>, name: string)
    ensures var r := FindScreen(screens, name);
            && (r.Some? ==> exists i :: IsFirstScreen(screens, name, i) && screens[i] == r.value)
            && (r.None? ==> forall i :: 0 <= i < |screens| ==> Lower(screens[i].name) != name)
  {
    FirstIndexFromIsFirst(screens, ScreenKey, name, 0);
    var i := FirstIndex(screens, ScreenKey, name);
    if i.Some? {
      assert IsFirstScreen(screens, name, i.value);
    } else {
      assert forall j :: 0 <= j < |screens| ==> ScreenKey(screens[j]) != name;
    }
  }

  /** `devices.FirstOrDefault(x => x.DeviceType.ToLower() == deviceType)`. */
  function FirstOfType(devices: seq<Device>, deviceType: string): Option<Device> {
    var i := FirstIndex(devices, DeviceKey, deviceType);
    if i.None? then None else Some(devices[i.value])
  }

  /** Device i has type `deviceType` (ignoring case) and no device before it has. */
  predicate IsFirstOfType(devices: seq<Device>, deviceType: string, i: int) {
    && 0 <= i < |devices| && Lower(devices[i].deviceType) == deviceType
    && forall j :: 0 <= j < i ==> Lower(devices[j].deviceType) != deviceType
  }

  /** The device found is the first of that type; None means no device has that type. */
  lemma FirstOfTypeIsFirst(devices: seq<Device>, deviceType: string)
    ensures var r := FirstOfType(devices, deviceType);
            && (r.Some? ==> exists i :: IsFirstOfType(devices, deviceType, i) && devices[i] == r.value)
            && (r.None? ==> forall i :: 0 <= i < |devices| ==> Lower(devices[i].deviceType) != deviceType)
  {
    FirstIndexFromIsFirst(devices, DeviceKey, deviceType, 0);
    var i := FirstIndex(devices, DeviceKey, deviceType);
    if i.Some? {
      assert IsFirstOfType(devices, deviceType, i.value);
    } else {
      assert forall j :: 0 <= j < |devices| ==> DeviceKey(devices[j]) != deviceType;
    }
  }

  /** Two names are equal ignoring case, as `a.ToLower() == b.ToLower()`. */
  predicate SameName(a: string, b: string) {
    Lower(a) == Lower(b)
  }
}
