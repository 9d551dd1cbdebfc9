/** Devices belong to a tenant; every table refers to them by both. */
module Tenancy {
  datatype DeviceKey = DeviceKey(tenant: string, device: string)
}
