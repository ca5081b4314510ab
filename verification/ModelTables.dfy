/** The fields of a model file, line by line: where the six writers of ModelInfoService store each
    property and through which call, and where, and through which call and cast, the six parsers read
    it.  Each table is taken from its own lines of the source; nothing here says that they agree. */
module ModelTables {
  import opened Decimal
  import opened ModelInfo

  /** The stored properties of the model's objects. */
  datatype Prop =
    | InfoSigType | InfoFreq | InfoHActive | InfoHBP | InfoHWidth | InfoHFP | InfoVActive | InfoVBP | InfoVWidth
    | InfoVFP | InfoELVDD | InfoELVSS | InfoDDVDH | InfoPwrVol(i: nat) | InfoPwrCurHL(i: nat) | InfoPwrCurLL(i: nat)
    | InfoPwrVolHL(i: nat) | InfoPwrVolLL(i: nat) | InfoPwrVolHL2(i: nat) | InfoPwrVolLL2(i: nat)
    | InfoPwrCurHL2(i: nat) | InfoPwrCurLL2(i: nat) | PatternGroupName | Info2PatGrpName | Info2ConfigName
    | Info2CheckSum | Info2ZAxis | ConfHActive | ConfHBp | ConfHSa | ConfHFp | ConfVActive | ConfVBp | ConfVSa
    | ConfVFp | ConfLinkRate | ConfLane | ConfVsync | ConfRgbFormat | ConfAlpmMode | ConfVfbOffset | ConfHFdp
    | ConfHSdp | ConfHPcnt | ConfVbN5b | ConfVbN7 | ConfVbN5a | ConfVbSleep | ConfVbN2 | ConfVbN3 | ConfVbN4
    | ConfMVid | ConfNVid | ConfMisc0 | ConfMisc1 | ConfXpol | ConfXdelay | ConfHMg | ConfNoAuxSel | ConfNoAuxActive
    | ConfNoAuxSleep | ConfCriticalSection | ConfTps | ConfVBlank | ConfChopEnable | ConfChopInterval | ConfChopSize
    | PwrSlope | PwrName(i: nat) | PwrVol(i: nat) | PwrVolLl(i: nat) | PwrVolHl(i: nat) | PwrCurLl(i: nat)
    | PwrCurHl(i: nat) | SeqOn(i: nat) | SeqOff(i: nat) | FlowModelType | FlowModelTypeName | FlowModelFileName
    | FlowProcessName | FlowPatGrpName | FlowUseDutDetect | FlowBcrLength | FlowCa410MemCh | FlowUseNvmInit
    | FlowIdleMode | FlowIdleModeDTime | FlowUseCheckVer | FlowUseCheckReProgramming | FlowUseCkNVMWriteSequence
    | FlowUseTconWriteChecksum | FlowUseIonOnOff | FlowSerialNoAddress | FlowSerialNoLength

  /** The declared types. */
  function TypeOf(p: Prop): Kind
  {
    match p
    case InfoSigType => Byte
    case InfoFreq | ConfLinkRate | PwrVol(_) | PwrVolLl(_) | PwrVolHl(_) | PwrCurLl(_) | PwrCurHl(_)
       | FlowSerialNoAddress | FlowSerialNoLength => UInt32
    case InfoHActive | InfoHBP | InfoHWidth | InfoHFP | InfoVActive | InfoVBP | InfoVWidth | InfoVFP | InfoELVDD
       | InfoELVSS | InfoDDVDH | InfoPwrVol(_) | InfoPwrCurHL(_) | InfoPwrCurLL(_) | InfoPwrVolHL(_)
       | InfoPwrVolLL(_) | InfoPwrVolHL2(_) | InfoPwrVolLL2(_) | InfoPwrCurHL2(_) | InfoPwrCurLL2(_) | ConfHActive
       | ConfHBp | ConfHSa | ConfHFp | ConfVActive | ConfVBp | ConfVSa | ConfVFp => UInt16
    case PatternGroupName | Info2PatGrpName | Info2ConfigName | Info2CheckSum | ConfRgbFormat | PwrName(_)
       | FlowModelTypeName | FlowModelFileName | FlowProcessName | FlowPatGrpName => Str
    case FlowUseDutDetect | FlowIdleMode | FlowUseCheckVer | FlowUseCheckReProgramming | FlowUseTconWriteChecksum
       | FlowUseIonOnOff => Flag
    case _ => Int32
  }

  /** The writers' calls. */
  function WrittenAs(p: Prop): Form
  {
    match p
    case InfoFreq | ConfLinkRate | PwrVol(_) | PwrVolLl(_) | PwrVolHl(_) | PwrCurLl(_) | PwrCurHl(_)
       | FlowSerialNoAddress | FlowSerialNoLength => AsInt
    case PatternGroupName | Info2PatGrpName | Info2ConfigName | Info2CheckSum | ConfRgbFormat | PwrName(_)
       | FlowModelTypeName | FlowModelFileName | FlowProcessName | FlowPatGrpName => AsString
    case FlowUseDutDetect | FlowIdleMode | FlowUseCheckVer | FlowUseCheckReProgramming | FlowUseTconWriteChecksum
       | FlowUseIonOnOff => AsBool
    case _ => Plain
  }

  /** The parsers' calls. */
  function ReadAs(p: Prop): Cast
  {
    match p
    case InfoSigType => ToByte
    case InfoFreq | ConfLinkRate | PwrVol(_) | PwrVolLl(_) | PwrVolHl(_) | PwrCurLl(_) | PwrCurHl(_)
       | FlowSerialNoAddress | FlowSerialNoLength => ToUInt
    case InfoHActive | InfoHBP | InfoHWidth | InfoHFP | InfoVActive | InfoVBP | InfoVWidth | InfoVFP | InfoELVDD
       | InfoELVSS | InfoDDVDH | InfoPwrVol(_) | InfoPwrCurHL(_) | InfoPwrCurLL(_) | InfoPwrVolHL(_)
       | InfoPwrVolLL(_) | InfoPwrVolHL2(_) | InfoPwrVolLL2(_) | InfoPwrCurHL2(_) | InfoPwrCurLL2(_) | ConfHActive
       | ConfHBp | ConfHSa | ConfHFp | ConfVActive | ConfVBp | ConfVSa | ConfVFp => ToUShort
    case PatternGroupName | Info2PatGrpName | Info2ConfigName | Info2CheckSum | ConfRgbFormat | PwrName(_)
       | FlowModelTypeName | FlowModelFileName | FlowProcessName | FlowPatGrpName => ToString
    case FlowUseDutDetect | FlowIdleMode | FlowUseCheckVer | FlowUseCheckReProgramming | FlowUseTconWriteChecksum
       | FlowUseIonOnOff => ToBool
    case _ => Uncast
  }

  /** A line of a writer or of a parser: the property and its place. */
  datatype Row = Row(prop: Prop, section: string, key: string)

  const MODEL_INFO := "MODEL_INFO"
  const MODEL_INFO2 := "MODEL_INFO2"
  const MODEL_RESOLUTION := "MODEL_RESOLUTION"
  const MODEL_TIMING := "MODEL_TIMING"
  const MODEL_ALPDP := "MODEL_ALPDP"
  const POWER_DATA := "POWER_DATA"
  const POWER_SEQUENCE := "POWER_SEQUENCE"
  const FLOW_DATA := "FLOW_DATA"

  /** A loop over i < n. */
  function Loop(block: nat -> seq<Row>, n: nat): seq<Row>
  {
    if n == 0 then [] else Loop(block, n - 1) + block(n - 1)
  }

  // --- The writers ---

  function InfoPuts(): seq<Row>
  {
    [Row(InfoSigType, MODEL_INFO, "SigType"), Row(InfoFreq, MODEL_INFO, "Freq"),
     Row(InfoHActive, MODEL_INFO, "H_Active"), Row(InfoHBP, MODEL_INFO, "H_BP"),
     Row(InfoHWidth, MODEL_INFO, "H_Width"), Row(InfoHFP, MODEL_INFO, "H_FP"),
     Row(InfoVActive, MODEL_INFO, "V_Active"), Row(InfoVBP, MODEL_INFO, "V_BP"),
     Row(InfoVWidth, MODEL_INFO, "V_Width"), Row(InfoVFP, MODEL_INFO, "V_FP"), Row(InfoELVDD, MODEL_INFO, "VLCD"),
     Row(InfoELVSS, MODEL_INFO, "VEL"), Row(InfoDDVDH, MODEL_INFO, "VCC")]
  }

  function InfoPowerPuts(i: nat): seq<Row>
  {
    [Row(InfoPwrVol(i), MODEL_INFO, "PWR_VOL_" + Print(i)),
     Row(InfoPwrCurHL(i), MODEL_INFO, "PWR_CUR_HL_" + Print(i)),
     Row(InfoPwrCurLL(i), MODEL_INFO, "PWR_CUR_LL_" + Print(i)),
     Row(InfoPwrVolHL(i), MODEL_INFO, "PWR_VOL_HL_" + Print(i)),
     Row(InfoPwrVolLL(i), MODEL_INFO, "PWR_VOL_LL_" + Print(i))]
  }

  function InfoPower2Puts(i: nat): seq<Row>
  {
    [Row(InfoPwrVolHL2(i), MODEL_INFO, "PWR_VOL_HL2_" + Print(i)),
     Row(InfoPwrVolLL2(i), MODEL_INFO, "PWR_VOL_LL2_" + Print(i)),
     Row(InfoPwrCurHL2(i), MODEL_INFO, "PWR_CUR_HL2_" + Print(i)),
     Row(InfoPwrCurLL2(i), MODEL_INFO, "PWR_CUR_LL2_" + Print(i))]
  }

  function InfoGroupPuts(): seq<Row>
  {
    [Row(PatternGroupName, MODEL_INFO, "Pattern_Group")]
  }

  function Info2Puts(): seq<Row>
  {
    [Row(Info2PatGrpName, MODEL_INFO2, "PatGrpName"), Row(Info2ConfigName, MODEL_INFO2, "ConfigName"),
     Row(Info2CheckSum, MODEL_INFO2, "CheckSum"), Row(Info2ZAxis, MODEL_INFO2, "Z_AXIS")]
  }

  function ResolutionPuts(): seq<Row>
  {
    [Row(ConfHActive, MODEL_RESOLUTION, "H_Active"), Row(ConfHBp, MODEL_RESOLUTION, "H_BP"),
     Row(ConfHSa, MODEL_RESOLUTION, "H_SA"), Row(ConfHFp, MODEL_RESOLUTION, "H_FP"),
     Row(ConfVActive, MODEL_RESOLUTION, "V_Active"), Row(ConfVBp, MODEL_RESOLUTION, "V_BP"),
     Row(ConfVSa, MODEL_RESOLUTION, "V_SA"), Row(ConfVFp, MODEL_RESOLUTION, "V_FP")]
  }

  function TimingPuts(): seq<Row>
  {
    [Row(ConfLinkRate, MODEL_TIMING, "link_rate"), Row(ConfLane, MODEL_TIMING, "lane"),
     Row(ConfVsync, MODEL_TIMING, "Vsync"), Row(ConfRgbFormat, MODEL_TIMING, "RGBFormat"),
     Row(ConfAlpmMode, MODEL_TIMING, "ALPM_Mode"), Row(ConfVfbOffset, MODEL_TIMING, "vfb_offset")]
  }

  function AlpdpAPuts(): seq<Row>
  {
    [Row(ConfHFdp, MODEL_ALPDP, "h_fdp"), Row(ConfHSdp, MODEL_ALPDP, "h_sdp"),
     Row(ConfHPcnt, MODEL_ALPDP, "h_pcnt"), Row(ConfVbN5b, MODEL_ALPDP, "vb_n5b"),
     Row(ConfVbN7, MODEL_ALPDP, "vb_n7"), Row(ConfVbN5a, MODEL_ALPDP, "vb_n5a"),
     Row(ConfVbSleep, MODEL_ALPDP, "vb_sleep"), Row(ConfVbN2, MODEL_ALPDP, "vb_n2"),
     Row(ConfVbN3, MODEL_ALPDP, "vb_n3"), Row(ConfVbN4, MODEL_ALPDP, "vb_n4"), Row(ConfMVid, MODEL_ALPDP, "m_vid"),
     Row(ConfNVid, MODEL_ALPDP, "n_vid"), Row(ConfMisc0, MODEL_ALPDP, "misc_0")]
  }

  function AlpdpBPuts(): seq<Row>
  {
    [Row(ConfMisc1, MODEL_ALPDP, "misc_1"), Row(ConfXpol, MODEL_ALPDP, "xpol"),
     Row(ConfXdelay, MODEL_ALPDP, "xdelay"), Row(ConfHMg, MODEL_ALPDP, "h_mg"),
     Row(ConfNoAuxSel, MODEL_ALPDP, "NoAux_Sel"), Row(ConfNoAuxActive, MODEL_ALPDP, "NoAux_Active"),
     Row(ConfNoAuxSleep, MODEL_ALPDP, "NoAux_Sleep"), Row(ConfCriticalSection, MODEL_ALPDP, "critical_section"),
     Row(ConfTps, MODEL_ALPDP, "tps"), Row(ConfVBlank, MODEL_ALPDP, "v_blank"),
     Row(ConfChopEnable, MODEL_ALPDP, "chop_enable"), Row(ConfChopInterval, MODEL_ALPDP, "chop_interval"),
     Row(ConfChopSize, MODEL_ALPDP, "chop_size")]
  }

  function SlopePuts(): seq<Row>
  {
    [Row(PwrSlope, POWER_DATA, "PWR_SLOPE")]
  }

  function PowerPuts(i: nat): seq<Row>
  {
    [Row(PwrName(i), POWER_DATA, "PWR_NAME_" + Print(i)), Row(PwrVol(i), POWER_DATA, "PWR_VOL_" + Print(i)),
     Row(PwrVolLl(i), POWER_DATA, "PWR_VOL_LL_" + Print(i)), Row(PwrVolHl(i), POWER_DATA, "PWR_VOL_HL_" + Print(i)),
     Row(PwrCurLl(i), POWER_DATA, "PWR_CUR_LL_" + Print(i)), Row(PwrCurHl(i), POWER_DATA, "PWR_CUR_HL_" + Print(i))]
  }

  function SequencePuts(i: nat): seq<Row>
  {
    [Row(SeqOn(i), POWER_SEQUENCE, "PWR_SEQ_ON_" + Print(i)),
     Row(SeqOff(i), POWER_SEQUENCE, "PWR_SEQ_OFF_" + Print(i))]
  }

  function FlowAPuts(): seq<Row>
  {
    [Row(FlowModelType, FLOW_DATA, "MODELTYPE"), Row(FlowModelTypeName, FLOW_DATA, "MODEL_TYPE_NAME"),
     Row(FlowModelFileName, FLOW_DATA, "MODEL_FILE_NAME"), Row(FlowProcessName, FLOW_DATA, "ProcessName"),
     Row(FlowPatGrpName, FLOW_DATA, "PatGrpName"), Row(FlowUseDutDetect, FLOW_DATA, "UseDutDetect"),
     Row(FlowBcrLength, FLOW_DATA, "BcrLength"), Row(FlowCa410MemCh, FLOW_DATA, "Ca410MemCh"),
     Row(FlowUseNvmInit, FLOW_DATA, "NVMINITMODE")]
  }

  function FlowBPuts(): seq<Row>
  {
    [Row(FlowIdleMode, FLOW_DATA, "IDLE_MODE"), Row(FlowIdleModeDTime, FLOW_DATA, "IDLEMODEDTIME"),
     Row(FlowUseCheckVer, FLOW_DATA, "USE_CHECK_VERSION"),
     Row(FlowUseCheckReProgramming, FLOW_DATA, "USE_CHECK_ReProgramming"),
     Row(FlowUseCkNVMWriteSequence, FLOW_DATA, "USE_CHECK_NVMWriteSequence"),
     Row(FlowUseTconWriteChecksum, FLOW_DATA, "USE_CHECK_TCONWRITECHECKSUM"),
     Row(FlowUseIonOnOff, FLOW_DATA, "USE_IONIZER_ON_OFF"), Row(FlowSerialNoAddress, FLOW_DATA, "SERIALNO_ADDR"),
     Row(FlowSerialNoLength, FLOW_DATA, "SERIALNO_LENGTH")]
  }

  function WriteModelInfo(): seq<Row> { InfoPuts() + Loop(InfoPowerPuts, 6) + Loop(InfoPower2Puts, 3) + InfoGroupPuts() }

  function WriteModelInfo2(): seq<Row> { Info2Puts() }

  function WritePgResolutionAndTiming(): seq<Row> { ResolutionPuts() + TimingPuts() + AlpdpAPuts() + AlpdpBPuts() }

  function WritePowerData(): seq<Row> { SlopePuts() + Loop(PowerPuts, 5) + Loop(SequencePuts, 3) }

  function WriteFlowData(): seq<Row> { FlowAPuts() + FlowBPuts() }

  // --- The parsers ---

  function InfoGets(): seq<Row>
  {
    [Row(InfoSigType, MODEL_INFO, "SigType"), Row(InfoFreq, MODEL_INFO, "Freq"),
     Row(InfoHActive, MODEL_INFO, "H_Active"), Row(InfoHBP, MODEL_INFO, "H_BP"),
     Row(InfoHWidth, MODEL_INFO, "H_Width"), Row(InfoHFP, MODEL_INFO, "H_FP"),
     Row(InfoVActive, MODEL_INFO, "V_Active"), Row(InfoVBP, MODEL_INFO, "V_BP"),
     Row(InfoVWidth, MODEL_INFO, "V_Width"), Row(InfoVFP, MODEL_INFO, "V_FP"), Row(InfoELVDD, MODEL_INFO, "VLCD"),
     Row(InfoELVSS, MODEL_INFO, "VEL"), Row(InfoDDVDH, MODEL_INFO, "VCC")]
  }

  function InfoPowerGets(i: nat): seq<Row>
  {
    [Row(InfoPwrVol(i), MODEL_INFO, "PWR_VOL_" + Print(i)),
     Row(InfoPwrCurHL(i), MODEL_INFO, "PWR_CUR_HL_" + Print(i)),
     Row(InfoPwrCurLL(i), MODEL_INFO, "PWR_CUR_LL_" + Print(i)),
     Row(InfoPwrVolHL(i), MODEL_INFO, "PWR_VOL_HL_" + Print(i)),
     Row(InfoPwrVolLL(i), MODEL_INFO, "PWR_VOL_LL_" + Print(i))]
  }

  function InfoPower2Gets(i: nat): seq<Row>
  {
    [Row(InfoPwrVolHL2(i), MODEL_INFO, "PWR_VOL_HL2_" + Print(i)),
     Row(InfoPwrVolLL2(i), MODEL_INFO, "PWR_VOL_LL2_" + Print(i)),
     Row(InfoPwrCurHL2(i), MODEL_INFO, "PWR_CUR_HL2_" + Print(i)),
     Row(InfoPwrCurLL2(i), MODEL_INFO, "PWR_CUR_LL2_" + Print(i))]
  }

  function InfoGroupGets(): seq<Row>
  {
    [Row(PatternGroupName, MODEL_INFO, "Pattern_Group")]
  }

  function Info2Gets(): seq<Row>
  {
    [Row(Info2PatGrpName, MODEL_INFO2, "PatGrpName"), Row(Info2ConfigName, MODEL_INFO2, "ConfigName"),
     Row(Info2CheckSum, MODEL_INFO2, "CheckSum"), Row(Info2ZAxis, MODEL_INFO2, "Z_AXIS")]
  }

  function ResolutionGets(): seq<Row>
  {
    [Row(ConfHActive, MODEL_RESOLUTION, "H_Active"), Row(ConfHBp, MODEL_RESOLUTION, "H_BP"),
     Row(ConfHSa, MODEL_RESOLUTION, "H_SA"), Row(ConfHFp, MODEL_RESOLUTION, "H_FP"),
     Row(ConfVActive, MODEL_RESOLUTION, "V_Active"), Row(ConfVBp, MODEL_RESOLUTION, "V_BP"),
     Row(ConfVSa, MODEL_RESOLUTION, "V_SA"), Row(ConfVFp, MODEL_RESOLUTION, "V_FP")]
  }

  function TimingGets(): seq<Row>
  {
    [Row(ConfLinkRate, MODEL_TIMING, "link_rate"), Row(ConfLane, MODEL_TIMING, "lane"),
     Row(ConfVsync, MODEL_TIMING, "Vsync"), Row(ConfRgbFormat, MODEL_TIMING, "RGBFormat"),
     Row(ConfAlpmMode, MODEL_TIMING, "ALPM_Mode"), Row(ConfVfbOffset, MODEL_TIMING, "vfb_offset")]
  }

  function AlpdpAGets(): seq<Row>
  {
    [Row(ConfHFdp, MODEL_ALPDP, "h_fdp"), Row(ConfHSdp, MODEL_ALPDP, "h_sdp"),
     Row(ConfHPcnt, MODEL_ALPDP, "h_pcnt"), Row(ConfVbN5b, MODEL_ALPDP, "vb_n5b"),
     Row(ConfVbN7, MODEL_ALPDP, "vb_n7"), Row(ConfVbN5a, MODEL_ALPDP, "vb_n5a"),
     Row(ConfVbSleep, MODEL_ALPDP, "vb_sleep"), Row(ConfVbN2, MODEL_ALPDP, "vb_n2"),
     Row(ConfVbN3, MODEL_ALPDP, "vb_n3"), Row(ConfVbN4, MODEL_ALPDP, "vb_n4"), Row(ConfMVid, MODEL_ALPDP, "m_vid"),
     Row(ConfNVid, MODEL_ALPDP, "n_vid"), Row(ConfMisc0, MODEL_ALPDP, "misc_0")]
  }

  function AlpdpBGets(): seq<Row>
  {
    [Row(ConfMisc1, MODEL_ALPDP, "misc_1"), Row(ConfXpol, MODEL_ALPDP, "xpol"),
     Row(ConfXdelay, MODEL_ALPDP, "xdelay"), Row(ConfHMg, MODEL_ALPDP, "h_mg"),
     Row(ConfNoAuxSel, MODEL_ALPDP, "NoAux_Sel"), Row(ConfNoAuxActive, MODEL_ALPDP, "NoAux_Active"),
     Row(ConfNoAuxSleep, MODEL_ALPDP, "NoAux_Sleep"), Row(ConfCriticalSection, MODEL_ALPDP, "critical_section"),
     Row(ConfTps, MODEL_ALPDP, "tps"), Row(ConfVBlank, MODEL_ALPDP, "v_blank"),
     Row(ConfChopEnable, MODEL_ALPDP, "chop_enable"), Row(ConfChopInterval, MODEL_ALPDP, "chop_interval"),
     Row(ConfChopSize, MODEL_ALPDP, "chop_size")]
  }

  function SlopeGets(): seq<Row>
  {
    [Row(PwrSlope, POWER_DATA, "PWR_SLOPE")]
  }

  function PowerGets(i: nat): seq<Row>
  {
    [Row(PwrName(i), POWER_DATA, "PWR_NAME_" + Print(i)), Row(PwrVol(i), POWER_DATA, "PWR_VOL_" + Print(i)),
     Row(PwrVolLl(i), POWER_DATA, "PWR_VOL_LL_" + Print(i)), Row(PwrVolHl(i), POWER_DATA, "PWR_VOL_HL_" + Print(i)),
     Row(PwrCurLl(i), POWER_DATA, "PWR_CUR_LL_" + Print(i)), Row(PwrCurHl(i), POWER_DATA, "PWR_CUR_HL_" + Print(i))]
  }

  function SequenceGets(i: nat): seq<Row>
  {
    [Row(SeqOn(i), POWER_SEQUENCE, "PWR_SEQ_ON_" + Print(i)),
     Row(SeqOff(i), POWER_SEQUENCE, "PWR_SEQ_OFF_" + Print(i))]
  }

  function FlowAGets(): seq<Row>
  {
    [Row(FlowModelType, FLOW_DATA, "MODELTYPE"), Row(FlowModelTypeName, FLOW_DATA, "MODEL_TYPE_NAME"),
     Row(FlowModelFileName, FLOW_DATA, "MODEL_FILE_NAME"), Row(FlowProcessName, FLOW_DATA, "ProcessName"),
     Row(FlowPatGrpName, FLOW_DATA, "PatGrpName"), Row(FlowUseDutDetect, FLOW_DATA, "UseDutDetect"),
     Row(FlowBcrLength, FLOW_DATA, "BcrLength"), Row(FlowCa410MemCh, FLOW_DATA, "Ca410MemCh"),
     Row(FlowUseNvmInit, FLOW_DATA, "NVMINITMODE")]
  }

  function FlowBGets(): seq<Row>
  {
    [Row(FlowIdleMode, FLOW_DATA, "IDLE_MODE"), Row(FlowIdleModeDTime, FLOW_DATA, "IDLEMODEDTIME"),
     Row(FlowUseCheckVer, FLOW_DATA, "USE_CHECK_VERSION"),
     Row(FlowUseCheckReProgramming, FLOW_DATA, "USE_CHECK_ReProgramming"),
     Row(FlowUseCkNVMWriteSequence, FLOW_DATA, "USE_CHECK_NVMWriteSequence"),
     Row(FlowUseTconWriteChecksum, FLOW_DATA, "USE_CHECK_TCONWRITECHECKSUM"),
     Row(FlowUseIonOnOff, FLOW_DATA, "USE_IONIZER_ON_OFF"), Row(FlowSerialNoAddress, FLOW_DATA, "SERIALNO_ADDR"),
     Row(FlowSerialNoLength, FLOW_DATA, "SERIALNO_LENGTH")]
  }

  function ParseModelInfo(): seq<Row> { InfoGets() + Loop(InfoPowerGets, 6) + Loop(InfoPower2Gets, 3) + InfoGroupGets() }

  function ParseModelInfo2(): seq<Row> { Info2Gets() }

  function ParsePgResolutionAndTiming(): seq<Row> { ResolutionGets() + TimingGets() + AlpdpAGets() + AlpdpBGets() }

  function ParsePowerData(): seq<Row> { SlopeGets() + Loop(PowerGets, 5) + Loop(SequenceGets, 3) }

  function ParseFlowData(): seq<Row> { FlowAGets() + FlowBGets() }

  // --- Which property a place is for ---

  /** The number at the end of a key. */
  function LastDigit(s: string): nat
  {
    if s != [] && IsDigit(s[|s| - 1]) then Digit(s[|s| - 1]) else 0
  }

  // Keys of one section and one length, told apart by a few of their letters.

  function InfoOf3(a: char): Prop { if a == 'E' then InfoELVSS else InfoDDVDH }

  function InfoOf4(a: char, b: char): Prop
  {
    if a == 'E' then InfoFreq else if a == 'B' then (if b == 'H' then InfoHBP else InfoVBP)
    else if a == 'F' then (if b == 'H' then InfoHFP else InfoVFP) else InfoELVDD
  }

  function InfoOf7(a: char): Prop { if a == 'S' then InfoSigType else if a == 'H' then InfoHWidth else InfoVWidth }

  function InfoOf8(a: char): Prop { if a == 'H' then InfoHActive else InfoVActive }

  function InfoOf12(a: char, b: char, i: nat): Prop
  {
    if a == 'C' then (if b == 'H' then InfoPwrCurHL(i) else InfoPwrCurLL(i)) else if b == 'H' then InfoPwrVolHL(i)
    else InfoPwrVolLL(i)
  }

  function InfoOf13(a: char, b: char, i: nat): Prop
  {
    if a == 'E' then PatternGroupName else if a == 'V' then (if b == 'H' then InfoPwrVolHL2(i) else InfoPwrVolLL2(i))
    else if b == 'H' then InfoPwrCurHL2(i) else InfoPwrCurLL2(i)
  }

  function Info2Of10(a: char): Prop { if a == 'P' then Info2PatGrpName else Info2ConfigName }

  function ResolutionOf4(a: char, b: char): Prop
  {
    if a == 'B' then (if b == 'H' then ConfHBp else ConfVBp) else if a == 'S' then (if b == 'H' then ConfHSa
    else ConfVSa) else if b == 'H' then ConfHFp else ConfVFp
  }

  function ResolutionOf8(a: char): Prop { if a == 'H' then ConfHActive else ConfVActive }

  function TimingOf9(a: char): Prop
  {
    if a == 'L' then ConfLinkRate else if a == 'R' then ConfRgbFormat else ConfAlpmMode
  }

  function AlpdpOf4(a: char): Prop { if a == 'X' then ConfXpol else ConfHMg }

  function AlpdpOf5(a: char, b: char, c: char): Prop
  {
    if a == 'P' then (if b == 'F' then ConfHFdp else ConfHSdp) else if a == '7' then ConfVbN7
    else if a == '2' then ConfVbN2 else if a == '3' then ConfVbN3 else if a == '4' then ConfVbN4
    else if c == 'M' then ConfMVid else ConfNVid
  }

  function AlpdpOf6(a: char): Prop
  {
    if a == 'T' then ConfHPcnt else if a == 'B' then ConfVbN5b else if a == 'A' then ConfVbN5a
    else if a == '0' then ConfMisc0 else if a == '1' then ConfMisc1 else ConfXdelay
  }

  function AlpdpOf9(a: char): Prop { if a == 'N' then ConfNoAuxSel else ConfChopSize }

  function AlpdpOf11(a: char): Prop { if a == 'N' then ConfNoAuxSleep else ConfChopEnable }

  function PowerOf9(a: char, i: nat): Prop { if a == 'S' then PwrSlope else PwrVol(i) }

  function PowerOf12(a: char, b: char, i: nat): Prop
  {
    if a == 'V' then (if b == 'L' then PwrVolLl(i) else PwrVolHl(i)) else if b == 'L' then PwrCurLl(i)
    else PwrCurHl(i)
  }

  function FlowOf9(a: char): Prop
  {
    if a == 'M' then FlowModelType else if a == 'B' then FlowBcrLength else FlowIdleMode
  }

  function FlowOf10(a: char): Prop { if a == 'P' then FlowPatGrpName else FlowCa410MemCh }

  function FlowOf11(a: char): Prop { if a == 'P' then FlowProcessName else FlowUseNvmInit }

  function FlowOf13(a: char): Prop { if a == 'I' then FlowIdleModeDTime else FlowSerialNoAddress }

  function FlowOf15(a: char): Prop
  {
    if a == 'T' then FlowModelTypeName else if a == 'F' then FlowModelFileName else FlowSerialNoLength
  }

  function InfoAt(s: string): Prop
  {
    if |s| == 3 then InfoOf3(Up(s[1]))
    else if |s| == 4 then InfoOf4(Up(s[2]), Up(s[0]))
    else if |s| == 7 then InfoOf7(Up(s[0]))
    else if |s| == 8 then InfoOf8(Up(s[0]))
    else if |s| == 9 then InfoPwrVol(LastDigit(s))
    else if |s| == 12 then InfoOf12(Up(s[4]), Up(s[8]), LastDigit(s))
    else if |s| == 13 then InfoOf13(Up(s[4]), Up(s[8]), LastDigit(s))
    else InfoSigType
  }

  function Info2At(s: string): Prop
  {
    if |s| == 6 then Info2ZAxis
    else if |s| == 8 then Info2CheckSum
    else if |s| == 10 then Info2Of10(Up(s[0]))
    else Info2PatGrpName
  }

  function ResolutionAt(s: string): Prop
  {
    if |s| == 4 then ResolutionOf4(Up(s[2]), Up(s[0]))
    else if |s| == 8 then ResolutionOf8(Up(s[0]))
    else ConfHActive
  }

  function TimingAt(s: string): Prop
  {
    if |s| == 4 then ConfLane
    else if |s| == 5 then ConfVsync
    else if |s| == 9 then TimingOf9(Up(s[0]))
    else ConfVfbOffset
  }

  function AlpdpAt(s: string): Prop
  {
    if |s| == 3 then ConfTps
    else if |s| == 4 then AlpdpOf4(Up(s[0]))
    else if |s| == 5 then AlpdpOf5(Up(s[4]), Up(s[2]), Up(s[0]))
    else if |s| == 6 then AlpdpOf6(Up(s[5]))
    else if |s| == 7 then ConfVBlank
    else if |s| == 8 then ConfVbSleep
    else if |s| == 9 then AlpdpOf9(Up(s[0]))
    else if |s| == 11 then AlpdpOf11(Up(s[0]))
    else if |s| == 12 then ConfNoAuxActive
    else if |s| == 13 then ConfChopInterval
    else ConfCriticalSection
  }

  function PowerAt(s: string): Prop
  {
    if |s| == 9 then PowerOf9(Up(s[4]), LastDigit(s))
    else if |s| == 10 then PwrName(LastDigit(s))
    else if |s| == 12 then PowerOf12(Up(s[4]), Up(s[8]), LastDigit(s))
    else PwrSlope
  }

  function SequenceAt(s: string): Prop
  {
    if |s| == 12 then SeqOn(LastDigit(s))
    else SeqOff(LastDigit(s))
  }

  function FlowAt(s: string): Prop
  {
    if |s| == 9 then FlowOf9(Up(s[0]))
    else if |s| == 10 then FlowOf10(Up(s[0]))
    else if |s| == 11 then FlowOf11(Up(s[0]))
    else if |s| == 12 then FlowUseDutDetect
    else if |s| == 13 then FlowOf13(Up(s[0]))
    else if |s| == 15 then FlowOf15(Up(s[6]))
    else if |s| == 17 then FlowUseCheckVer
    else if |s| == 18 then FlowUseIonOnOff
    else if |s| == 23 then FlowUseCheckReProgramming
    else if |s| == 26 then FlowUseCkNVMWriteSequence
    else FlowUseTconWriteChecksum
  }

  datatype Sec = Info | Info2 | Resolution | Timing | Alpdp | Power | Sequence | Flow | Patterns

  function SectionAt(s: string): Sec
  {
    if |s| == 9 then Flow
    else if |s| == 10 then (if Up(s[0]) == 'M' then Info else Power)
    else if |s| == 11 then (if Up(s[0]) == 'P' then Patterns else if Up(s[6]) == 'I' then Info2 else Alpdp)
    else if |s| == 12 then Timing
    else if |s| == 14 then Sequence
    else Resolution
  }

  /** The property that a place is for. */
  function PropAt(section: string, key: string): Prop
  {
    match SectionAt(section)
    case Info => InfoAt(key)
    case Info2 => Info2At(key)
    case Resolution => ResolutionAt(key)
    case Timing => TimingAt(key)
    case Alpdp => AlpdpAt(key)
    case Power => PowerAt(key)
    case Sequence => SequenceAt(key)
    case _ => FlowAt(key)
  }
}
