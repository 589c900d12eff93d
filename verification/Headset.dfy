/** Headsets and their batteries, as the readers hand them on (src/headset.rs). */
module Headsets {
  import opened Prelude

  datatype BatteryState =
    | Discharging(percent: nat)
    | Charging(known: Option<nat>)
    | Unavailable
    | Disconnected

  /** Two polls report the same headset if they agree on these. */
  datatype HeadsetKey = HeadsetKey(vendorId: nat, productId: nat, name: string)

  /** A report about one headset. */
  datatype Headset = Headset(
    name: string,
    vendorId: nat,
    productId: nat,
    supportsBattery: bool,
    battery: BatteryState,
    sample: Option<nat>)
  {
    function Key(): HeadsetKey {
      HeadsetKey(vendorId, productId, name)
    }
  }

  /** Headsets of two products, or two vendors, or two models are never taken for one. */
  lemma KeysTellHeadsetsApart(h: Headset, g: Headset)
    ensures h.Key() == g.Key() <==> h.vendorId == g.vendorId && h.productId == g.productId && h.name == g.name
  {
  }
}
