/**
 * Configuration records of the gateway, their default values, and the
 * validator that restricts the inverter's connection type.
 */
module Config {
  import opened Wrappers

  datatype ServerConfig = ServerConfig(host: string, port: int, logLevel: string)

  /** Modbus TCP parameters; `host` has no default. */
  datatype TcpConfig = TcpConfig(host: string, port: int, slaveId: int, timeout: int)

  /** Modbus RTU (serial line) parameters; `port` (device name) has no default. */
  datatype RtuConfig = RtuConfig(
    port: string, baudrate: int, bytesize: int, parity: string,
    stopbits: int, slaveId: int, timeout: int)

  datatype InverterConfig = InverterConfig(
    connectionType: string, tcp: Option<TcpConfig>, rtu: Option<RtuConfig>)

  /** What the poller reads and how often (seconds). */
  datatype DataCollectionConfig = DataCollectionConfig(
    pollInterval: int, modelsToRead: seq<int>, maxRetries: int, retryDelay: int)

  datatype LoggingConfig = LoggingConfig(
    level: string, format: string, file: string, maxFileSize: string, backupCount: int)

  datatype GatewayInfo = GatewayInfo(name: string, version: string, description: string)

  datatype Config = Config(
    gateway: GatewayInfo, server: ServerConfig, inverter: InverterConfig,
    dataCollection: DataCollectionConfig, logging: LoggingConfig)

  /** `TCPConfig(host=host)`: every other field takes its declared default. */
  function DefaultTcpConfig(host: string): (c: TcpConfig)
    ensures c.host == host && c.port == 502 && c.slaveId == 1 && c.timeout == 10
  {
    TcpConfig(host, 502, 1, 10)
  }

  /** `RTUConfig(port=port)`: every other field takes its declared default. */
  function DefaultRtuConfig(port: string): (c: RtuConfig)
    ensures c.port == port && c.baudrate == 19200 && c.bytesize == 8 && c.parity == "N"
    ensures c.stopbits == 1 && c.slaveId == 1 && c.timeout == 10
  {
    RtuConfig(port, 19200, 8, "N", 1, 1, 10)
  }

  /** `DataCollectionConfig()`. */
  function DefaultDataCollection(): (c: DataCollectionConfig)
    ensures c.pollInterval == 30 && c.modelsToRead == [1, 103, 160, 113]
    ensures c.maxRetries == 3 && c.retryDelay == 5
  {
    DataCollectionConfig(30, [1, 103, 160, 113], 3, 5)
  }

  /** `ServerConfig()`. */
  function DefaultServer(): (c: ServerConfig)
    ensures c.host == "0.0.0.0" && c.port == 8080 && c.logLevel == "INFO"
  {
    ServerConfig("0.0.0.0", 8080, "INFO")
  }

  /** `LoggingConfig()`. */
  function DefaultLogging(): (c: LoggingConfig)
    ensures c.level == "INFO" && c.file == "gateway.log"
    ensures c.maxFileSize == "10MB" && c.backupCount == 5
  {
    LoggingConfig("INFO", "%(asctime)s - %(name)s - %(levelname)s - %(message)s",
                  "gateway.log", "10MB", 5)
  }

  /** `GatewayInfo()`. */
  function DefaultGatewayInfo(): (g: GatewayInfo)
    ensures g.name == "SunSpec Gateway" && g.version == "1.0.0"
  {
    GatewayInfo("SunSpec Gateway", "1.0.0",
                "Production-grade brand-agnostic SunSpec inverter gateway")
  }

  /**
   * The field validator on `connection_type`: the value passes through
   * unchanged when it is one of the two supported transports, and the
   * validator raises otherwise.
   */
  function ValidateConnectionType(v: string): (r: Result<string, string>)
    ensures r.Success? <==> v == "tcp" || v == "rtu"
    ensures r.Success? ==> r.value == v
  {
    if v == "tcp" || v == "rtu" then Success(v)
    else Failure("connection_type must be 'tcp' or 'rtu'")
  }

  /** Constructing an `InverterConfig` runs the validator on `connection_type`. */
  function NewInverterConfig(connectionType: string, tcp: Option<TcpConfig>, rtu: Option<RtuConfig>)
    : (r: Result<InverterConfig, string>)
    ensures r.Success? <==> ValidateConnectionType(connectionType).Success?
    ensures r.Success? ==> r.value == InverterConfig(connectionType, tcp, rtu)
  {
    match ValidateConnectionType(connectionType)
    case Success(v) => Success(InverterConfig(v, tcp, rtu))
    case Failure(e) => Failure(e)
  }

  /** The development configuration: TCP to 192.168.1.100, no serial section. */
  function GetDefaultConfig(): (c: Config)
    ensures c.inverter.connectionType == "tcp"
    ensures c.inverter.tcp == Some(DefaultTcpConfig("192.168.1.100")) && c.inverter.rtu == None
    ensures c.dataCollection == DefaultDataCollection()
    ensures c.server == DefaultServer() && c.logging == DefaultLogging()
    ensures c.gateway == DefaultGatewayInfo()
  {
    Config(DefaultGatewayInfo(), DefaultServer(),
           InverterConfig("tcp", Some(DefaultTcpConfig("192.168.1.100")), None),
           DefaultDataCollection(), DefaultLogging())
  }

  /** The default configuration is one the validator accepts as it stands. */
  lemma DefaultConfigValidates()
    ensures NewInverterConfig("tcp", Some(DefaultTcpConfig("192.168.1.100")), None)
            == Success(GetDefaultConfig().inverter)
  {
  }
}
