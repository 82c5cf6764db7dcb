/**
 * The typed printer snapshot the normaliser produces. Every optional field is
 * an `Option`: `None` is "never reported" (JavaScript's `undefined`), except
 * where a comment says it stands for `null`.
 */
module PrinterTypes {
  import opened Wrappers
  import opened Numbers
  import opened JsValue

  datatype LightMode = On | Off | Flashing

  datatype Temperatures = Temperatures(
    nozzle: Option<Dec>,
    nozzleTarget: Option<Dec>,
    bed: Option<Dec>,
    bedTarget: Option<Dec>,
    chamber: Option<Dec>)

  datatype FanSpeeds = FanSpeeds(
    part: Option<Dec>,
    chamber: Option<Dec>,
    aux: Option<Dec>,
    heatbreak: Option<Dec>)

  datatype Lights = Lights(chamber: Option<LightMode>, work: Option<LightMode>)

  /** `record`, `timelapse` and `tutkServer` are copied as text, whatever the device sent. */
  datatype Ipcam = Ipcam(
    enabled: bool,
    record: string,
    timelapse: string,
    resolution: Option<string>,
    tutkServer: Option<string>,
    modeBits: Option<Dec>)

  /** `status` is copied as text; it is not checked against the four documented values. */
  datatype Upgrade = Upgrade(
    status: string,
    progressPct: Option<Dec>,
    message: Option<string>,
    hasNewVersion: bool,
    currentVersion: Option<string>,
    newVersion: Option<string>)

  /** A filament slot. `infoIdx` is `None` for `null`. */
  datatype AmsTray = AmsTray(
    id: Dec,
    trayType: Option<string>,
    colorHex: Option<string>,
    nozzleTempMin: Option<Dec>,
    nozzleTempMax: Option<Dec>,
    bedTemp: Option<Dec>,
    remain: Option<Dec>,
    infoIdx: Option<string>,
    external: bool)

  /** The feed unit. `existBits` and `isBblBits` are `None` for `null`; the tray record is keyed by id. */
  datatype AmsState = AmsState(
    trays: map<Dec, AmsTray>,
    trayNow: Option<Dec>,
    trayPre: Option<Dec>,
    existBits: Option<string>,
    isBblBits: Option<string>,
    version: Option<Dec>)

  datatype Stage = StageText(text: string) | StageNumber(n: Dec)

  datatype Job = Job(
    stage: Option<Stage>,
    subStage: Option<Dec>,
    percent: Option<Dec>,
    remainingSeconds: Option<Dec>,
    file: Option<string>)

  /** `version` is passed through unconverted. */
  datatype Online = Online(ahb: Option<bool>, rfid: Option<bool>, version: Value)

  datatype NetworkInfo = NetworkInfo(ip: Option<Dec>, mask: Option<Dec>)

  datatype NozzleDiameter = DiameterNumber(n: Dec) | DiameterText(text: string)

  datatype PrinterState = PrinterState(
    raw: Value,
    timestamp: int,
    command: Option<string>,
    sequenceId: Value,
    lifecycle: Option<string>,
    printType: Option<string>,
    gcodeState: Option<string>,
    job: Job,
    temps: Temperatures,
    fans: FanSpeeds,
    lights: Lights,
    ipcam: Option<Ipcam>,
    upgrade: Option<Upgrade>,
    ams: Option<AmsState>,
    vtTray: Option<AmsTray>,
    online: Online,
    wifiSignalDbm: Option<int>,
    homeFlag: Option<Dec>,
    nozzleDiameter: Option<NozzleDiameter>,
    nozzleType: Option<string>,
    network: Option<seq<NetworkInfo>>)
}
