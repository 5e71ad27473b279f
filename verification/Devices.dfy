/** How the machine names a device: by its owner and its device id. */
module Devices {

  datatype DeviceKey = DeviceKey(userId: string, deviceId: string)
}
