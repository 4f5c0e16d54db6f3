/**
 * The abstract view of a SunSpec device that the client drives. It stands in
 * for the pySunSpec2 device objects: a map from model key to the list of model
 * instances found by the scan, each instance holding named points with an
 * optional raw `value` and an optional scaled `cvalue`.
 */
module SunSpecDevice {
  import opened Wrappers
  import opened Config

  /** A point value as the register-map library delivers it. */
  datatype Value = IntValue(i: int) | RealValue(x: real) | StrValue(s: string)

  /** A point: the raw register value and the scale-factor-applied value. */
  datatype Point = Point(value: Option<Value>, cvalue: Option<Value>)

  /** A group of a model: a list of repeating instances, or a single group object. */
  datatype Group = Repeating(instances: seq<map<string, Point>>) | Single(points: map<string, Point>)

  datatype ModelInstance = ModelInstance(
    modelName: Option<string>, points: map<string, Point>, groups: map<string, Group>)

  /** The library indexes each discovered model both by its numeric id and by its name. */
  datatype ModelKey = ById(id: int) | ByName(name: string)

  /** Which transport constructor the device was built with, and its parameters. */
  datatype Transport = TcpTransport(tcp: TcpConfig) | RtuTransport(rtu: RtuConfig)

  datatype Device = Device(transport: Transport, models: map<ModelKey, seq<ModelInstance>>)
}
