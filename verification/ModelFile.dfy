/** The whole model file: the six writers one after the other on a store, and the six parsers on what
    they left. */
module ModelFile {
  import opened Decimal
  import opened IniFile
  import opened IniStore
  import opened ModelInfo
  import opened ModelTables

  /** The properties of the model's objects. */
  type Values = Prop -> Datum

  ghost predicate Typed(values: Values) { forall p :: InRange(TypeOf(p), values(p)) }

  // --- The tables agree ---

  /** Every property is stored by the call, and read by the call and the cast, that belong to its type. */
  lemma CallsFit(p: Prop)
    ensures Fits(TypeOf(p), WrittenAs(p), ReadAs(p))
  {
  }

  lemma {:induction false} LoopsAgree(f: nat -> seq<Row>, g: nat -> seq<Row>, n: nat)
    requires forall i: nat | i < n :: f(i) == g(i)
    ensures Loop(f, n) == Loop(g, n)
  {
    if n != 0 {
      LoopsAgree(f, g, n - 1);
    }
  }

  lemma BlocksAgree(i: nat)
    ensures InfoPowerPuts(i) == InfoPowerGets(i) && InfoPower2Puts(i) == InfoPower2Gets(i)
    ensures PowerPuts(i) == PowerGets(i) && SequencePuts(i) == SequenceGets(i)
  {
  }

  lemma FlatLinesAgree()
    ensures InfoPuts() == InfoGets() && InfoGroupPuts() == InfoGroupGets() && Info2Puts() == Info2Gets()
    ensures ResolutionPuts() == ResolutionGets() && TimingPuts() == TimingGets()
    ensures AlpdpAPuts() == AlpdpAGets() && AlpdpBPuts() == AlpdpBGets() && SlopePuts() == SlopeGets()
    ensures FlowAPuts() == FlowAGets() && FlowBPuts() == FlowBGets()
  {
  }

  /** Every line of a parser reads, for its property, the place that the same line of the writer wrote. */
  lemma LinesAgree()
    ensures WriteModelInfo() == ParseModelInfo() && WriteModelInfo2() == ParseModelInfo2()
    ensures WritePgResolutionAndTiming() == ParsePgResolutionAndTiming()
    ensures WritePowerData() == ParsePowerData() && WriteFlowData() == ParseFlowData()
  {
    hide InfoPowerPuts, InfoPowerGets, InfoPower2Puts, InfoPower2Gets, PowerPuts, PowerGets, SequencePuts, SequenceGets;
    hide InfoPuts, InfoGets, InfoGroupPuts, InfoGroupGets, Info2Puts, Info2Gets, ResolutionPuts, ResolutionGets, TimingPuts, TimingGets;
    hide AlpdpAPuts, AlpdpAGets, AlpdpBPuts, AlpdpBGets, SlopePuts, SlopeGets, FlowAPuts, FlowAGets, FlowBPuts, FlowBGets, Loop;
    FlatLinesAgree();
    forall i: nat
      ensures InfoPowerPuts(i) == InfoPowerGets(i) && InfoPower2Puts(i) == InfoPower2Gets(i)
      ensures PowerPuts(i) == PowerGets(i) && SequencePuts(i) == SequenceGets(i)
    {
      BlocksAgree(i);
    }
    LoopsAgree(InfoPowerPuts, InfoPowerGets, 6);
    LoopsAgree(InfoPower2Puts, InfoPower2Gets, 3);
    LoopsAgree(PowerPuts, PowerGets, 5);
    LoopsAgree(SequencePuts, SequenceGets, 3);
  }

  // --- No two properties are kept in the same place ---

  /** A line whose place is that of its property, and outside the pattern list. */
  predicate Placed(r: Row) { !SectionAt(r.section).Patterns? && PropAt(r.section, r.key) == r.prop }

  predicate AllPlaced(rows: seq<Row>) { forall r | r in rows :: Placed(r) }

  lemma InfoPlace(rows: seq<Row>)
    requires forall k | 0 <= k < |rows| :: rows[k].section == MODEL_INFO && InfoAt(rows[k].key) == rows[k].prop
    ensures AllPlaced(rows)
  {
    hide InfoAt, Info2At, ResolutionAt, TimingAt, AlpdpAt, PowerAt, SequenceAt, FlowAt;
  }

  lemma Info2Place(rows: seq<Row>)
    requires forall k | 0 <= k < |rows| :: rows[k].section == MODEL_INFO2 && Info2At(rows[k].key) == rows[k].prop
    ensures AllPlaced(rows)
  {
    hide InfoAt, Info2At, ResolutionAt, TimingAt, AlpdpAt, PowerAt, SequenceAt, FlowAt;
  }

  lemma ResolutionPlace(rows: seq<Row>)
    requires forall k | 0 <= k < |rows| :: rows[k].section == MODEL_RESOLUTION && ResolutionAt(rows[k].key) == rows[k].prop
    ensures AllPlaced(rows)
  {
    hide InfoAt, Info2At, ResolutionAt, TimingAt, AlpdpAt, PowerAt, SequenceAt, FlowAt;
  }

  lemma TimingPlace(rows: seq<Row>)
    requires forall k | 0 <= k < |rows| :: rows[k].section == MODEL_TIMING && TimingAt(rows[k].key) == rows[k].prop
    ensures AllPlaced(rows)
  {
    hide InfoAt, Info2At, ResolutionAt, TimingAt, AlpdpAt, PowerAt, SequenceAt, FlowAt;
  }

  lemma AlpdpPlace(rows: seq<Row>)
    requires forall k | 0 <= k < |rows| :: rows[k].section == MODEL_ALPDP && AlpdpAt(rows[k].key) == rows[k].prop
    ensures AllPlaced(rows)
  {
    hide InfoAt, Info2At, ResolutionAt, TimingAt, AlpdpAt, PowerAt, SequenceAt, FlowAt;
  }

  lemma PowerPlace(rows: seq<Row>)
    requires forall k | 0 <= k < |rows| :: rows[k].section == POWER_DATA && PowerAt(rows[k].key) == rows[k].prop
    ensures AllPlaced(rows)
  {
    hide InfoAt, Info2At, ResolutionAt, TimingAt, AlpdpAt, PowerAt, SequenceAt, FlowAt;
  }

  lemma SequencePlace(rows: seq<Row>)
    requires forall k | 0 <= k < |rows| :: rows[k].section == POWER_SEQUENCE && SequenceAt(rows[k].key) == rows[k].prop
    ensures AllPlaced(rows)
  {
    hide InfoAt, Info2At, ResolutionAt, TimingAt, AlpdpAt, PowerAt, SequenceAt, FlowAt;
  }

  lemma FlowPlace(rows: seq<Row>)
    requires forall k | 0 <= k < |rows| :: rows[k].section == FLOW_DATA && FlowAt(rows[k].key) == rows[k].prop
    ensures AllPlaced(rows)
  {
    hide InfoAt, Info2At, ResolutionAt, TimingAt, AlpdpAt, PowerAt, SequenceAt, FlowAt;
  }

  lemma InfoKeys1()
    ensures InfoAt("SigType") == InfoSigType && InfoAt("Freq") == InfoFreq && InfoAt("H_Active") == InfoHActive
         && InfoAt("H_BP") == InfoHBP && InfoAt("H_Width") == InfoHWidth && InfoAt("H_FP") == InfoHFP
  {
  }

  lemma InfoKeys2()
    ensures InfoAt("V_Active") == InfoVActive && InfoAt("V_BP") == InfoVBP && InfoAt("V_Width") == InfoVWidth
         && InfoAt("V_FP") == InfoVFP && InfoAt("VLCD") == InfoELVDD && InfoAt("VEL") == InfoELVSS
  {
  }

  lemma InfoKeys3()
    ensures InfoAt("VCC") == InfoDDVDH
  {
  }

  lemma InfoPlaced()
    ensures AllPlaced(InfoPuts())
  {
    hide AllPlaced, InfoAt, Print;
    InfoKeys1();
    InfoKeys2();
    InfoKeys3();
    InfoPlace(InfoPuts());
  }

  lemma InfoPowerKeys1(i: nat)
    requires i < 10
    ensures InfoAt("PWR_VOL_" + Print(i)) == InfoPwrVol(i) && InfoAt("PWR_CUR_HL_" + Print(i)) == InfoPwrCurHL(i)
         && InfoAt("PWR_CUR_LL_" + Print(i)) == InfoPwrCurLL(i)
  {
  }

  lemma InfoPowerKeys2(i: nat)
    requires i < 10
    ensures InfoAt("PWR_VOL_HL_" + Print(i)) == InfoPwrVolHL(i)
         && InfoAt("PWR_VOL_LL_" + Print(i)) == InfoPwrVolLL(i)
  {
  }

  lemma InfoPowerPlaced(i: nat)
    requires i < 10
    ensures AllPlaced(InfoPowerPuts(i))
  {
    hide AllPlaced, InfoAt, Print;
    InfoPowerKeys1(i);
    InfoPowerKeys2(i);
    InfoPlace(InfoPowerPuts(i));
  }

  lemma InfoPower2Keys1(i: nat)
    requires i < 10
    ensures InfoAt("PWR_VOL_HL2_" + Print(i)) == InfoPwrVolHL2(i)
         && InfoAt("PWR_VOL_LL2_" + Print(i)) == InfoPwrVolLL2(i)
         && InfoAt("PWR_CUR_HL2_" + Print(i)) == InfoPwrCurHL2(i)
  {
  }

  lemma InfoPower2Keys2(i: nat)
    requires i < 10
    ensures InfoAt("PWR_CUR_LL2_" + Print(i)) == InfoPwrCurLL2(i)
  {
  }

  lemma InfoPower2Placed(i: nat)
    requires i < 10
    ensures AllPlaced(InfoPower2Puts(i))
  {
    hide AllPlaced, InfoAt, Print;
    InfoPower2Keys1(i);
    InfoPower2Keys2(i);
    InfoPlace(InfoPower2Puts(i));
  }

  lemma InfoGroupKeys()
    ensures InfoAt("Pattern_Group") == PatternGroupName
  {
  }

  lemma InfoGroupPlaced()
    ensures AllPlaced(InfoGroupPuts())
  {
    hide AllPlaced, InfoAt, Print;
    InfoGroupKeys();
    InfoPlace(InfoGroupPuts());
  }

  lemma Info2Keys()
    ensures Info2At("PatGrpName") == Info2PatGrpName && Info2At("ConfigName") == Info2ConfigName
         && Info2At("CheckSum") == Info2CheckSum && Info2At("Z_AXIS") == Info2ZAxis
  {
  }

  lemma Info2Placed()
    ensures AllPlaced(Info2Puts())
  {
    hide AllPlaced, Info2At, Print;
    Info2Keys();
    Info2Place(Info2Puts());
  }

  lemma ResolutionKeys1()
    ensures ResolutionAt("H_Active") == ConfHActive && ResolutionAt("H_BP") == ConfHBp
         && ResolutionAt("H_SA") == ConfHSa && ResolutionAt("H_FP") == ConfHFp
         && ResolutionAt("V_Active") == ConfVActive && ResolutionAt("V_BP") == ConfVBp
  {
  }

  lemma ResolutionKeys2()
    ensures ResolutionAt("V_SA") == ConfVSa && ResolutionAt("V_FP") == ConfVFp
  {
  }

  lemma ResolutionPlaced()
    ensures AllPlaced(ResolutionPuts())
  {
    hide AllPlaced, ResolutionAt, Print;
    ResolutionKeys1();
    ResolutionKeys2();
    ResolutionPlace(ResolutionPuts());
  }

  lemma TimingKeys()
    ensures TimingAt("link_rate") == ConfLinkRate && TimingAt("lane") == ConfLane
         && TimingAt("Vsync") == ConfVsync && TimingAt("RGBFormat") == ConfRgbFormat
         && TimingAt("ALPM_Mode") == ConfAlpmMode && TimingAt("vfb_offset") == ConfVfbOffset
  {
  }

  lemma TimingPlaced()
    ensures AllPlaced(TimingPuts())
  {
    hide AllPlaced, TimingAt, Print;
    TimingKeys();
    TimingPlace(TimingPuts());
  }

  lemma AlpdpAKeys1()
    ensures AlpdpAt("h_fdp") == ConfHFdp && AlpdpAt("h_sdp") == ConfHSdp && AlpdpAt("h_pcnt") == ConfHPcnt
         && AlpdpAt("vb_n5b") == ConfVbN5b && AlpdpAt("vb_n7") == ConfVbN7 && AlpdpAt("vb_n5a") == ConfVbN5a
  {
  }

  lemma AlpdpAKeys2()
    ensures AlpdpAt("vb_sleep") == ConfVbSleep && AlpdpAt("vb_n2") == ConfVbN2 && AlpdpAt("vb_n3") == ConfVbN3
         && AlpdpAt("vb_n4") == ConfVbN4 && AlpdpAt("m_vid") == ConfMVid && AlpdpAt("n_vid") == ConfNVid
  {
  }

  lemma AlpdpAKeys3()
    ensures AlpdpAt("misc_0") == ConfMisc0
  {
  }

  lemma AlpdpAPlaced()
    ensures AllPlaced(AlpdpAPuts())
  {
    hide AllPlaced, AlpdpAt, Print;
    AlpdpAKeys1();
    AlpdpAKeys2();
    AlpdpAKeys3();
    AlpdpPlace(AlpdpAPuts());
  }

  lemma AlpdpBKeys1()
    ensures AlpdpAt("misc_1") == ConfMisc1 && AlpdpAt("xpol") == ConfXpol && AlpdpAt("xdelay") == ConfXdelay
         && AlpdpAt("h_mg") == ConfHMg && AlpdpAt("NoAux_Sel") == ConfNoAuxSel
         && AlpdpAt("NoAux_Active") == ConfNoAuxActive
  {
  }

  lemma AlpdpBKeys2()
    ensures AlpdpAt("NoAux_Sleep") == ConfNoAuxSleep && AlpdpAt("critical_section") == ConfCriticalSection
         && AlpdpAt("tps") == ConfTps && AlpdpAt("v_blank") == ConfVBlank
         && AlpdpAt("chop_enable") == ConfChopEnable && AlpdpAt("chop_interval") == ConfChopInterval
  {
  }

  lemma AlpdpBKeys3()
    ensures AlpdpAt("chop_size") == ConfChopSize
  {
  }

  lemma AlpdpBPlaced()
    ensures AllPlaced(AlpdpBPuts())
  {
    hide AllPlaced, AlpdpAt, Print;
    AlpdpBKeys1();
    AlpdpBKeys2();
    AlpdpBKeys3();
    AlpdpPlace(AlpdpBPuts());
  }

  lemma SlopeKeys()
    ensures PowerAt("PWR_SLOPE") == PwrSlope
  {
  }

  lemma SlopePlaced()
    ensures AllPlaced(SlopePuts())
  {
    hide AllPlaced, PowerAt, Print;
    SlopeKeys();
    PowerPlace(SlopePuts());
  }

  lemma PowerKeys1(i: nat)
    requires i < 10
    ensures PowerAt("PWR_NAME_" + Print(i)) == PwrName(i) && PowerAt("PWR_VOL_" + Print(i)) == PwrVol(i)
         && PowerAt("PWR_VOL_LL_" + Print(i)) == PwrVolLl(i)
  {
  }

  lemma PowerKeys2(i: nat)
    requires i < 10
    ensures PowerAt("PWR_VOL_HL_" + Print(i)) == PwrVolHl(i) && PowerAt("PWR_CUR_LL_" + Print(i)) == PwrCurLl(i)
         && PowerAt("PWR_CUR_HL_" + Print(i)) == PwrCurHl(i)
  {
  }

  lemma PowerRows(i: nat)
    requires i < 10
    ensures var rows := PowerPuts(i);
            forall k | 0 <= k < |rows| :: rows[k].section == POWER_DATA && PowerAt(rows[k].key) == rows[k].prop
  {
    hide PowerAt, Print;
    PowerKeys1(i);
    PowerKeys2(i);
  }

  lemma PowerPlaced(i: nat)
    requires i < 10
    ensures AllPlaced(PowerPuts(i))
  {
    hide AllPlaced, PowerAt, Print, PowerPuts;
    PowerRows(i);
    PowerPlace(PowerPuts(i));
  }

  lemma SequenceKeys(i: nat)
    requires i < 10
    ensures SequenceAt("PWR_SEQ_ON_" + Print(i)) == SeqOn(i) && SequenceAt("PWR_SEQ_OFF_" + Print(i)) == SeqOff(i)
  {
  }

  lemma SequencePlaced(i: nat)
    requires i < 10
    ensures AllPlaced(SequencePuts(i))
  {
    hide AllPlaced, SequenceAt, Print;
    SequenceKeys(i);
    SequencePlace(SequencePuts(i));
  }

  lemma FlowAKeys1()
    ensures FlowAt("MODELTYPE") == FlowModelType && FlowAt("MODEL_TYPE_NAME") == FlowModelTypeName
         && FlowAt("MODEL_FILE_NAME") == FlowModelFileName && FlowAt("ProcessName") == FlowProcessName
         && FlowAt("PatGrpName") == FlowPatGrpName
  {
  }

  lemma FlowAKeys2()
    ensures FlowAt("UseDutDetect") == FlowUseDutDetect && FlowAt("BcrLength") == FlowBcrLength
         && FlowAt("Ca410MemCh") == FlowCa410MemCh && FlowAt("NVMINITMODE") == FlowUseNvmInit
  {
  }

  lemma FlowAPlaced()
    ensures AllPlaced(FlowAPuts())
  {
    hide AllPlaced, FlowAt, Print;
    FlowAKeys1();
    FlowAKeys2();
    FlowPlace(FlowAPuts());
  }

  lemma FlowBKeys1()
    ensures FlowAt("IDLE_MODE") == FlowIdleMode && FlowAt("IDLEMODEDTIME") == FlowIdleModeDTime
         && FlowAt("USE_CHECK_VERSION") == FlowUseCheckVer
         && FlowAt("USE_CHECK_ReProgramming") == FlowUseCheckReProgramming
         && FlowAt("USE_CHECK_NVMWriteSequence") == FlowUseCkNVMWriteSequence
  {
  }

  lemma FlowBKeys2()
    ensures FlowAt("USE_CHECK_TCONWRITECHECKSUM") == FlowUseTconWriteChecksum
         && FlowAt("USE_IONIZER_ON_OFF") == FlowUseIonOnOff && FlowAt("SERIALNO_ADDR") == FlowSerialNoAddress
         && FlowAt("SERIALNO_LENGTH") == FlowSerialNoLength
  {
  }

  lemma FlowBPlaced()
    ensures AllPlaced(FlowBPuts())
  {
    hide AllPlaced, FlowAt, Print;
    FlowBKeys1();
    FlowBKeys2();
    FlowPlace(FlowBPuts());
  }

  lemma {:induction false} LoopPlaced(block: nat -> seq<Row>, n: nat)
    requires forall i: nat | i < n :: AllPlaced(block(i))
    ensures AllPlaced(Loop(block, n))
  {
    if n != 0 {
      LoopPlaced(block, n - 1);
    }
  }

  // The places do not depend on the case of their names.

  lemma SameUp(s: string, t: string, k: nat)
    requires SameLetters(s, t)
    ensures k < |s| ==> k < |t| && Up(s[k]) == Up(t[k])
  {
  }

  lemma SameEnds(s: string, t: string)
    requires SameLetters(s, t)
    ensures |s| == |t| && LastDigit(s) == LastDigit(t)
  {
    SameUp(s, t, if |s| > 0 then |s| - 1 else 0);
  }

  lemma InfoCase(s: string, t: string)
    requires SameLetters(s, t)
    ensures InfoAt(s) == InfoAt(t)
  {
    hide SameLetters, Up, LastDigit, InfoOf3, InfoOf4, InfoOf7, InfoOf8, InfoOf12, InfoOf13;
    SameEnds(s, t);
    SameUp(s, t, 0);
    SameUp(s, t, 1);
    SameUp(s, t, 2);
    SameUp(s, t, 4);
    SameUp(s, t, 8);
  }

  lemma Info2Case(s: string, t: string)
    requires SameLetters(s, t)
    ensures Info2At(s) == Info2At(t)
  {
    hide SameLetters, Up, LastDigit, Info2Of10;
    SameEnds(s, t);
    SameUp(s, t, 0);
  }

  lemma ResolutionCase(s: string, t: string)
    requires SameLetters(s, t)
    ensures ResolutionAt(s) == ResolutionAt(t)
  {
    hide SameLetters, Up, LastDigit, ResolutionOf4, ResolutionOf8;
    SameEnds(s, t);
    SameUp(s, t, 0);
    SameUp(s, t, 2);
  }

  lemma TimingCase(s: string, t: string)
    requires SameLetters(s, t)
    ensures TimingAt(s) == TimingAt(t)
  {
    hide SameLetters, Up, LastDigit, TimingOf9;
    SameEnds(s, t);
    SameUp(s, t, 0);
  }

  lemma AlpdpCase(s: string, t: string)
    requires SameLetters(s, t)
    ensures AlpdpAt(s) == AlpdpAt(t)
  {
    hide SameLetters, Up, LastDigit, AlpdpOf4, AlpdpOf5, AlpdpOf6, AlpdpOf9, AlpdpOf11;
    SameEnds(s, t);
    SameUp(s, t, 0);
    SameUp(s, t, 2);
    SameUp(s, t, 4);
    SameUp(s, t, 5);
  }

  lemma PowerCase(s: string, t: string)
    requires SameLetters(s, t)
    ensures PowerAt(s) == PowerAt(t)
  {
    hide SameLetters, Up, LastDigit, PowerOf9, PowerOf12;
    SameEnds(s, t);
    SameUp(s, t, 4);
    SameUp(s, t, 8);
  }

  lemma SequenceCase(s: string, t: string)
    requires SameLetters(s, t)
    ensures SequenceAt(s) == SequenceAt(t)
  {
    hide SameLetters, Up, LastDigit;
    SameEnds(s, t);
  }

  lemma FlowCase(s: string, t: string)
    requires SameLetters(s, t)
    ensures FlowAt(s) == FlowAt(t)
  {
    hide SameLetters, Up, LastDigit, FlowOf9, FlowOf10, FlowOf11, FlowOf13, FlowOf15;
    SameEnds(s, t);
    SameUp(s, t, 0);
    SameUp(s, t, 6);
  }

  lemma SectionCase(s: string, t: string)
    requires SameLetters(s, t)
    ensures SectionAt(s) == SectionAt(t)
  {
  }

  lemma PlaceCase(s: string, t: string, k: string, l: string)
    requires SameLetters(s, t) && SameLetters(k, l)
    ensures PropAt(s, k) == PropAt(t, l)
  {
    hide InfoAt, Info2At, ResolutionAt, TimingAt, AlpdpAt, PowerAt, SequenceAt, FlowAt, SectionAt;
    SectionCase(s, t);
    InfoCase(k, l);
    Info2Case(k, l);
    ResolutionCase(k, l);
    TimingCase(k, l);
    AlpdpCase(k, l);
    PowerCase(k, l);
    SequenceCase(k, l);
    FlowCase(k, l);
  }

  /** Lines that the comparison takes to be for the same place are for the same property. */
  lemma SamePlace(p: Row, q: Row, fold: Fold)
    requires IgnoresCase(fold) && Placed(p) && Placed(q) && fold(p.section) == fold(q.section) && fold(p.key) == fold(q.key)
    ensures p.prop == q.prop
  {
    hide PropAt, SectionAt, SameLetters;
    assert SameLetters(p.section, q.section) && SameLetters(p.key, q.key);
    PlaceCase(p.section, q.section, p.key, q.key);
  }

  lemma OutsidePatterns(p: Row, fold: Fold)
    requires IgnoresCase(fold) && Placed(p)
    ensures fold(p.section) != fold(PATTERNS)
  {
    hide PropAt;
    if fold(p.section) == fold(PATTERNS) {
      SectionCase(p.section, PATTERNS);
    }
  }

  lemma AllArePlaced()
    ensures AllPlaced(WriteModelInfo()) && AllPlaced(WriteModelInfo2()) && AllPlaced(WritePgResolutionAndTiming())
    ensures AllPlaced(WritePowerData()) && AllPlaced(WriteFlowData())
  {
    hide Placed, InfoPuts, InfoPowerPuts, InfoPower2Puts, InfoGroupPuts, Info2Puts, ResolutionPuts, TimingPuts;
    hide AlpdpAPuts, AlpdpBPuts, SlopePuts, PowerPuts, SequencePuts, FlowAPuts, FlowBPuts;
    InfoPlaced();
    forall i: nat | i < 10
      ensures AllPlaced(InfoPowerPuts(i)) && AllPlaced(InfoPower2Puts(i)) && AllPlaced(PowerPuts(i)) && AllPlaced(SequencePuts(i))
    {
      InfoPowerPlaced(i);
      InfoPower2Placed(i);
      PowerPlaced(i);
      SequencePlaced(i);
    }
    LoopPlaced(InfoPowerPuts, 6);
    LoopPlaced(InfoPower2Puts, 3);
    InfoGroupPlaced();
    Info2Placed();
    ResolutionPlaced();
    TimingPlaced();
    AlpdpAPlaced();
    AlpdpBPlaced();
    SlopePlaced();
    LoopPlaced(PowerPuts, 5);
    LoopPlaced(SequencePuts, 3);
    FlowAPlaced();
    FlowBPlaced();
  }

  // --- Writing and reading lines ---

  /** What a line stores. */
  function Stored(r: Row, values: Values): string
  {
    var v := values(r.prop);
    if Storable(WrittenAs(r.prop), v) then Encode(WrittenAs(r.prop), v) else ""
  }

  /** A writer: its lines in turn. */
  function WriteLines(store: seq<Section>, rows: seq<Row>, values: Values, fold: Fold): seq<Section>
  {
    if rows == [] then store
    else
      var r := rows[|rows| - 1];
      Write(WriteLines(store, rows[..|rows| - 1], values, fold), r.section, r.key, Stored(r, values), fold)
  }

  /** What a parser's line gives. */
  function ReadLine(store: seq<Section>, r: Row, fold: Fold): Datum
  {
    Decode(ReadAs(r.prop), Lookup(store, r.section, r.key, fold), fold)
  }

  /** The place of a line holds what the line stores. */
  predicate Holds(store: seq<Section>, r: Row, values: Values, fold: Fold)
  {
    Lookup(store, r.section, r.key, fold) == Some(Stored(r, values))
  }

  /** One line leaves the others' values, if they are for other properties or are the same. */
  lemma OneLine(store: seq<Section>, p: Row, q: Row, values: Values, fold: Fold)
    requires IgnoresCase(fold) && Placed(p) && Placed(q)
    ensures var s := Write(store, p.section, p.key, Stored(p, values), fold);
            Holds(s, p, values, fold) && (Holds(store, q, values, fold) ==> Holds(s, q, values, fold))
  {
    hide Lookup, Write, Placed, Encode, WrittenAs;
    ReadAfterWrite(store, p.section, p.key, Stored(p, values), p.section, p.key, fold);
    ReadAfterWrite(store, p.section, p.key, Stored(p, values), q.section, q.key, fold);
    if fold(p.section) == fold(q.section) && fold(p.key) == fold(q.key) {
      SamePlace(p, q, fold);
    }
  }

  /** The lines of a writer are all there afterwards, and those of earlier writers still are. */
  lemma {:induction false} LinesHold(store: seq<Section>, rows: seq<Row>, q: Row, values: Values, fold: Fold)
    requires IgnoresCase(fold) && AllPlaced(rows) && Placed(q)
    requires q in rows || Holds(store, q, values, fold)
    ensures Holds(WriteLines(store, rows, values, fold), q, values, fold)
    decreases |rows|
  {
    hide Placed, Holds, Write, Stored;
    if rows != [] {
      var rest, last := rows[..|rows| - 1], rows[|rows| - 1];
      assert rows == rest + [last] && last in rows;
      OneLine(WriteLines(store, rest, values, fold), last, q, values, fold);
      if q != last {
        LinesHold(store, rest, q, values, fold);
      }
    }
  }

  /** No line touches the pattern list. */
  lemma {:induction false} PatternsKept(store: seq<Section>, rows: seq<Row>, key: string, values: Values, fold: Fold)
    requires IgnoresCase(fold) && AllPlaced(rows)
    ensures At(WriteLines(store, rows, values, fold), key, fold) == At(store, key, fold)
    decreases |rows|
  {
    hide Placed, Write, Stored, Lookup;
    if rows != [] {
      var rest, last := rows[..|rows| - 1], rows[|rows| - 1];
      assert rows == rest + [last] && last in rows;
      PatternsKept(store, rest, key, values, fold);
      OutsidePatterns(last, fold);
      ReadAfterWrite(WriteLines(store, rest, values, fold), last.section, last.key, Stored(last, values), PATTERNS, key, fold);
    }
  }

  /** The pattern list touches no line. */
  lemma ItemKeeps(store: seq<Section>, i: nat, item: Pattern, r: Row, values: Values, fold: Fold)
    requires IgnoresCase(fold) && Placed(r) && Holds(store, r, values, fold)
    ensures Holds(WriteItem(store, i, item, fold), r, values, fold)
  {
    hide Lookup, Write, PrintInt, Placed, Stored, NameKey, TypeKey, IdxKey;
    OutsidePatterns(r, fold);
    var s1 := Write(store, PATTERNS, NameKey(i), item.name, fold);
    var s2 := Write(s1, PATTERNS, TypeKey(i), PrintInt(item.patType), fold);
    ReadAfterWrite(store, PATTERNS, NameKey(i), item.name, r.section, r.key, fold);
    ReadAfterWrite(s1, PATTERNS, TypeKey(i), PrintInt(item.patType), r.section, r.key, fold);
    ReadAfterWrite(s2, PATTERNS, IdxKey(i), PrintInt(item.patIdx), r.section, r.key, fold);
  }

  lemma {:induction false} ItemsKeep(store: seq<Section>, items: seq<Pattern>, r: Row, values: Values, fold: Fold)
    requires IgnoresCase(fold) && Placed(r) && Holds(store, r, values, fold)
    ensures Holds(WriteItems(store, items, fold), r, values, fold)
    decreases |items|
  {
    hide Placed, Holds, WriteItem;
    if items != [] {
      var n := |items| - 1;
      ItemsKeep(store, items[..n], r, values, fold);
      ItemKeeps(WriteItems(store, items[..n], fold), n, items[n], r, values, fold);
    }
  }

  lemma PatternsKeep(store: seq<Section>, items: seq<Pattern>, r: Row, values: Values, fold: Fold)
    requires IgnoresCase(fold) && Placed(r) && Holds(store, r, values, fold)
    ensures Holds(WritePatterns(store, items, fold), r, values, fold)
  {
    hide Placed, Lookup, Write, PrintInt, CountKey, WriteItems, Stored;
    OutsidePatterns(r, fold);
    ReadAfterWrite(store, PATTERNS, CountKey(), PrintInt(|items|), r.section, r.key, fold);
    ItemsKeep(Write(store, PATTERNS, CountKey(), PrintInt(|items|), fold), items, r, values, fold);
  }

  // --- The whole file ---

  /** SaveModelConfig, up to the pattern list. */
  function SaveFields(store: seq<Section>, values: Values, fold: Fold): seq<Section>
  {
    WriteLines(WriteLines(WriteLines(WriteLines(store, WriteModelInfo(), values, fold), WriteModelInfo2(), values, fold),
                          WritePgResolutionAndTiming(), values, fold), WritePowerData(), values, fold)
  }

  /** SaveModelConfig, up to the flush. */
  function SaveModel(store: seq<Section>, values: Values, items: seq<Pattern>, fold: Fold): seq<Section>
  {
    WriteLines(WritePatterns(SaveFields(store, values, fold), items, fold), WriteFlowData(), values, fold)
  }

  /** The lines of the parsers that LoadModel runs, but for the pattern list. */
  function Parsed(): seq<Row>
  {
    ParseModelInfo() + ParseModelInfo2() + ParsePgResolutionAndTiming() + ParsePowerData() + ParseFlowData()
  }

  lemma FieldHolds(store: seq<Section>, values: Values, items: seq<Pattern>, r: Row, fold: Fold)
    requires IgnoresCase(fold) && r in Parsed()
    ensures Holds(SaveModel(store, values, items, fold), r, values, fold)
  {
    hide WriteModelInfo, WriteModelInfo2, WritePgResolutionAndTiming, WritePowerData, WriteFlowData;
    hide ParseModelInfo, ParseModelInfo2, ParsePgResolutionAndTiming, ParsePowerData, ParseFlowData;
    hide Placed, Holds, WriteLines, WritePatterns;
    LinesAgree();
    AllArePlaced();
    var s1 := WriteLines(store, WriteModelInfo(), values, fold);
    var s2 := WriteLines(s1, WriteModelInfo2(), values, fold);
    var s3 := WriteLines(s2, WritePgResolutionAndTiming(), values, fold);
    var s4 := WriteLines(s3, WritePowerData(), values, fold);
    var s5 := WritePatterns(s4, items, fold);
    if r in WriteModelInfo() { LinesHold(store, WriteModelInfo(), r, values, fold); }
    if Holds(s1, r, values, fold) || r in WriteModelInfo2() { LinesHold(s1, WriteModelInfo2(), r, values, fold); }
    if Holds(s2, r, values, fold) || r in WritePgResolutionAndTiming() { LinesHold(s2, WritePgResolutionAndTiming(), r, values, fold); }
    if Holds(s3, r, values, fold) || r in WritePowerData() { LinesHold(s3, WritePowerData(), r, values, fold); }
    if Holds(s4, r, values, fold) { PatternsKeep(s4, items, r, values, fold); }
    LinesHold(s5, WriteFlowData(), r, values, fold);
  }

  lemma FieldsKeepPatterns(store: seq<Section>, values: Values, key: string, fold: Fold)
    requires IgnoresCase(fold)
    ensures At(SaveFields(store, values, fold), key, fold) == At(store, key, fold)
  {
    hide WriteModelInfo, WriteModelInfo2, WritePgResolutionAndTiming, WritePowerData, WriteFlowData, Placed, WriteLines, At;
    AllArePlaced();
    var s1 := WriteLines(store, WriteModelInfo(), values, fold);
    var s2 := WriteLines(s1, WriteModelInfo2(), values, fold);
    var s3 := WriteLines(s2, WritePgResolutionAndTiming(), values, fold);
    PatternsKept(store, WriteModelInfo(), key, values, fold);
    PatternsKept(s1, WriteModelInfo2(), key, values, fold);
    PatternsKept(s2, WritePgResolutionAndTiming(), key, values, fold);
    PatternsKept(s3, WritePowerData(), key, values, fold);
  }

  /** The same entries give the same list. */
  lemma {:induction false} SamePatterns(s: seq<Section>, t: seq<Section>, count: int, i: nat, fold: Fold)
    requires forall key :: At(s, key, fold) == At(t, key, fold)
    ensures ParseFrom(s, count, i, fold) == ParseFrom(t, count, i, fold)
    decreases MAX_PATTERNS - i
  {
    hide ReadInteger, Lookup, NameKey, TypeKey, IdxKey;
    assert At(s, NameKey(i), fold) == At(t, NameKey(i), fold) && At(s, TypeKey(i), fold) == At(t, TypeKey(i), fold)
        && At(s, IdxKey(i), fold) == At(t, IdxKey(i), fold);
    if i < MAX_PATTERNS {
      SamePatterns(s, t, count, i + 1, fold);
    }
  }

  lemma SameList(s: seq<Section>, t: seq<Section>, fold: Fold)
    requires forall key :: At(s, key, fold) == At(t, key, fold)
    ensures ParsePatterns(s, fold) == ParsePatterns(t, fold)
  {
    hide ReadInteger, Lookup, CountKey, ParseFrom;
    assert At(s, CountKey(), fold) == At(t, CountKey(), fold);
    SamePatterns(s, t, ReadInteger(At(s, CountKey(), fold), 0), 0, fold);
  }

  lemma FlagTexts(fold: Fold)
    requires IgnoresCase(fold)
    ensures fold("0") != fold("true") && fold("0") != fold("yes")
  {
    KeysDiffer("0", "true", fold);
    KeysDiffer("0", "yes", fold);
  }

  /** Model round trip.  On whatever store: after the six writers in their order, every line of the
      parsers gives its property the value it had, and the parsed pattern list is the one that was
      written exactly when it has 100 items, or fewer and the store held no older name behind them. */
  lemma ModelRestored(store: seq<Section>, values: Values, items: seq<Pattern>, fold: Fold)
    requires IgnoresCase(fold) && Typed(values) && ItemsInRange(items)
    ensures forall r | r in Parsed() :: ReadLine(SaveModel(store, values, items, fold), r, fold) == values(r.prop)
    ensures ParsePatterns(SaveModel(store, values, items, fold), fold) == items
       <==> |items| == 100 || (|items| < 100 && NameAt(store, |items|, fold) == "")
  {
    hide SaveModel, Parsed, ParsePatterns;
    forall r | r in Parsed() ensures ReadLine(SaveModel(store, values, items, fold), r, fold) == values(r.prop) {
      FieldRestored(store, values, items, r, fold);
    }
    ListRestored(store, values, items, fold);
  }

  lemma FieldRestored(store: seq<Section>, values: Values, items: seq<Pattern>, r: Row, fold: Fold)
    requires IgnoresCase(fold) && Typed(values) && r in Parsed()
    ensures ReadLine(SaveModel(store, values, items, fold), r, fold) == values(r.prop)
  {
    hide SaveModel, Parsed, Encode, Decode, TypeOf, WrittenAs, ReadAs, Lookup, InRange;
    FieldHolds(store, values, items, r, fold);
    FlagTexts(fold);
    CallsFit(r.prop);
    assert InRange(TypeOf(r.prop), values(r.prop));
    DecodeOfEncode(TypeOf(r.prop), WrittenAs(r.prop), ReadAs(r.prop), values(r.prop), fold);
  }

  lemma ListRestored(store: seq<Section>, values: Values, items: seq<Pattern>, fold: Fold)
    requires IgnoresCase(fold) && ItemsInRange(items)
    ensures ParsePatterns(SaveModel(store, values, items, fold), fold) == items
       <==> |items| == 100 || (|items| < 100 && NameAt(store, |items|, fold) == "")
  {
    hide WriteFlowData, Placed, WriteLines, WritePatterns, ParsePatterns, SaveFields, NameKey, Lookup, ItemsInRange;
    var fields := SaveFields(store, values, fold);
    var listed := WritePatterns(fields, items, fold);
    AllArePlaced();
    forall key ensures At(WriteLines(listed, WriteFlowData(), values, fold), key, fold) == At(listed, key, fold) {
      PatternsKept(listed, WriteFlowData(), key, values, fold);
    }
    SameList(WriteLines(listed, WriteFlowData(), values, fold), listed, fold);
    PatternsRestored(fields, items, fold);
    FieldsKeepPatterns(store, values, NameKey(|items|), fold);
  }

  // --- The methods ---

  /** One of the writers, call by call. */
  method WriteFields(ini: IniFileHelper, rows: seq<Row>, values: Values)
    modifies ini`sections, ini`modified
    ensures ini.sections == WriteLines(old(ini.sections), rows, values, ini.fold)
    ensures ini.modified == (old(ini.modified) || rows != [])
  {
    for i := 0 to |rows|
      invariant ini.sections == WriteLines(old(ini.sections), rows[..i], values, ini.fold)
      invariant ini.modified == (old(ini.modified) || i > 0)
    {
      assert rows[..i + 1][..i] == rows[..i];
      ini.WriteString(rows[i].section, rows[i].key, Stored(rows[i], values));
    }
    assert rows[..|rows|] == rows;
  }

  /** SaveModelConfig. */
  method SaveModelConfig(ini: IniFileHelper, values: Values, items: seq<Pattern>)
    modifies ini
    ensures ini.sections == SaveModel(old(ini.sections), values, items, ini.fold)
    ensures ini.file == Some(IniFile.Save(ini.sections)) && !ini.modified
  {
    hide WriteModelInfo, WriteModelInfo2, WritePgResolutionAndTiming, WritePowerData, WriteLines, WritePatterns, IniFile.Save;
    WriteFields(ini, WriteModelInfo(), values);
    WriteFields(ini, WriteModelInfo2(), values);
    WriteFields(ini, WritePgResolutionAndTiming(), values);
    WriteFields(ini, WritePowerData(), values);
    WritePatternData(ini, items);
    WriteFields(ini, WriteFlowData(), values);
    ini.Flush();
  }
}
