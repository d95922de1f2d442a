/** The colour table that tells the three device slots apart: one fill colour
    per slot, looked up by slot index and back by colour. */
module DeviceColors {
  import opened Raster

  /** A slot of the multi-device mockup: 0, 1 or 2. */
  type DeviceIndex = i: nat | i < 3

  const Primary: string := "#e5c4be"
  const Secondary: string := "#accbde"
  const Tertiary: string := "#ffe2c6"

  /** `DEVICE_COLOR_ORDER`: the colour of slot i is entry i. */
  const ColorOrder: seq<string> := [Primary, Secondary, Tertiary]

  /** `getDeviceColor`. */
  function GetDeviceColor(index: DeviceIndex): (c: string)
    ensures c in ColorOrder
  {
    ColorOrder[index]
  }

  /** `Array.prototype.indexOf`: the first position holding c, or -1. */
  function IndexOf(s: seq<string>, c: string): (i: int)
    ensures -1 <= i < |s|
    ensures i == -1 <==> c !in s
    ensures 0 <= i ==> s[i] == c && forall j :: 0 <= j < i ==> s[j] != c
  {
    if |s| == 0 then -1
    else if s[0] == c then 0
    else
      var i := IndexOf(s[1..], c);
      if i == -1 then -1 else i + 1
  }

  /** `getDeviceIndexFromColor`: the slot whose colour is c, if any. */
  function GetDeviceIndexFromColor(c: string): (r: Option<DeviceIndex>)
    ensures r.None? <==> c !in ColorOrder
    ensures r.Some? ==> ColorOrder[r.value] == c
  {
    var i := IndexOf(ColorOrder, c);
    if i == -1 then None else Some(i)
  }

  /** The three slot colours are pairwise distinct. */
  lemma ColorsDistinct()
    ensures forall i, j :: 0 <= i < j < |ColorOrder| ==> ColorOrder[i] != ColorOrder[j]
  {
    assert Primary[1] != Secondary[1] && Primary[1] != Tertiary[1] && Secondary[1] != Tertiary[1];
  }

  /** Looking a slot's colour up again gives back the slot. */
  lemma ColorRoundTrip(i: DeviceIndex)
    ensures GetDeviceIndexFromColor(GetDeviceColor(i)) == Some(i)
  {
    ColorsDistinct();
  }
}
