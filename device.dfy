/** The simulated printers of the live demo: each device walks through the
    states Offline, Idle, Heating, Printing and Cooling, driven by random draws
    that are passed in here as parameters. */
module Device {
  import opened Common

  /** The 32 demo printers. */
  const DemoDevices: seq<string> := [
    "anycubic_kobra2_1", "anycubic_kobra_max_1", "anycubic_vyper_1",
    "artillery_genius_pro_1", "artillery_sidewinder_x2_1", "artillery_sidewinder_x4_plus_1",
    "bambu_p1p_1", "bambu_p1s_1", "bambu_x1_carbon_1",
    "creality_cr10_smart_pro_1", "creality_ender3_v2_1", "creality_ender5_s1_1", "creality_k1_max_1",
    "elegoo_neptune3_pro_1", "elegoo_neptune4_pro_1",
    "flashforge_adventurer_5m_1", "flsun_qqs_pro_1",
    "kingroon_kp3s_pro_1",
    "prusa_mini_plus_1", "prusa_mini_plus_2", "prusa_mk3s_plus_1", "prusa_mk4_1", "prusa_mk4_2", "prusa_mk4_3",
    "prusa_xl_1", "prusa_xl_2",
    "qidi_xmax3_1",
    "sovol_sv06_plus_1", "sovol_sv07_1",
    "voron_24_1", "voron_switchwire_1", "voron_trident_1"
  ]

  const Materials: seq<string> := ["PLA", "PETG", "ABS", "TPU", "ASA"]

  const Filenames: seq<string> := [
    "test_print.gcode", "calibration_cube.gcode", "benchy.gcode",
    "temperature_tower.gcode", "functional_part.gcode", "prototype_v2.gcode",
    "demo_model.gcode", "bracket_mount.gcode", "enclosure_part.gcode"
  ]

  // ---------------------------------------------------------------------------
  // Printer size
  // ---------------------------------------------------------------------------

  datatype Category = Mini | Large | Standard

  /** The size class a device id names: "Mini" wins over "XL" and "Voron"; the
      test is case-sensitive. */
  function CategoryOf(id: string): (c: Category)
    ensures c == Mini <==> Contains(id, "Mini")
    ensures c == Large <==> !Contains(id, "Mini") && (Contains(id, "XL") || Contains(id, "Voron"))
  {
    if Contains(id, "Mini") then Mini
    else if Contains(id, "XL") || Contains(id, "Voron") then Large
    else Standard
  }

  /** The (low, high) power draw in watts of a size class while printing. */
  function PowerRange(c: Category): (r: (int, int))
    ensures 0 < r.0 < r.1
  {
    match c
    case Mini => (40, 80)
    case Large => (120, 250)
    case Standard => (80, 150)
  }

  /** A string without a capital ASCII letter. */
  predicate NoCapitals(s: string) {
    forall j :: 0 <= j < |s| ==> !('A' <= s[j] <= 'Z')
  }

  /** Every demo id is written in lower case, so none of them is classed Mini
      or Large. */
  lemma DemoDevicesAreStandard(id: string)
    requires id in DemoDevices
    ensures CategoryOf(id) == Standard
  {
    LowerCaseIds0();
    LowerCaseIds1();
    LowerCaseIds2();
    LowerCaseIds3();
    LowerCaseIds4();
    LowerCaseIds5();
    LowerCaseIds6();
    LowerCaseIds7();
    StandardId(id);
  }

  lemma LowerCaseIds0()
    ensures NoCapitals("anycubic_kobra2_1") && NoCapitals("anycubic_kobra_max_1") && NoCapitals("anycubic_vyper_1") && NoCapitals("artillery_genius_pro_1")
  {
  }

  lemma LowerCaseIds1()
    ensures NoCapitals("artillery_sidewinder_x2_1") && NoCapitals("artillery_sidewinder_x4_plus_1") && NoCapitals("bambu_p1p_1") && NoCapitals("bambu_p1s_1")
  {
  }

  lemma LowerCaseIds2()
    ensures NoCapitals("bambu_x1_carbon_1") && NoCapitals("creality_cr10_smart_pro_1") && NoCapitals("creality_ender3_v2_1") && NoCapitals("creality_ender5_s1_1")
  {
  }

  lemma LowerCaseIds3()
    ensures NoCapitals("creality_k1_max_1") && NoCapitals("elegoo_neptune3_pro_1") && NoCapitals("elegoo_neptune4_pro_1") && NoCapitals("flashforge_adventurer_5m_1")
  {
  }

  lemma LowerCaseIds4()
    ensures NoCapitals("flsun_qqs_pro_1") && NoCapitals("kingroon_kp3s_pro_1") && NoCapitals("prusa_mini_plus_1") && NoCapitals("prusa_mini_plus_2")
  {
  }

  lemma LowerCaseIds5()
    ensures NoCapitals("prusa_mk3s_plus_1") && NoCapitals("prusa_mk4_1") && NoCapitals("prusa_mk4_2") && NoCapitals("prusa_mk4_3")
  {
  }

  lemma LowerCaseIds6()
    ensures NoCapitals("prusa_xl_1") && NoCapitals("prusa_xl_2") && NoCapitals("qidi_xmax3_1") && NoCapitals("sovol_sv06_plus_1")
  {
  }

  lemma LowerCaseIds7()
    ensures NoCapitals("sovol_sv07_1") && NoCapitals("voron_24_1") && NoCapitals("voron_switchwire_1") && NoCapitals("voron_trident_1")
  {
  }

  /** An id without capitals names a standard printer. */
  lemma StandardId(id: string)
    requires NoCapitals(id)
    ensures CategoryOf(id) == Standard
  {
    NotContainsWithoutChar(id, "Mini", 'M');
    NotContainsWithoutChar(id, "XL", 'X');
    NotContainsWithoutChar(id, "Voron", 'V');
  }

  // ---------------------------------------------------------------------------
  // Transitions
  // ---------------------------------------------------------------------------

  datatype Status = Printing | Heating | Cooling | Idle | Offline

  /** The random values one update consumes: the progress increment (uniform in
      [0.35, 1.75]), the draw for the state's own transition, the draw for the
      offline event, and the picks from the material and file lists. */
  datatype Draws = Draws(advance: real, chance: real, offline: real, material: nat, file: nat)

  predicate ValidDraws(d: Draws) {
    0.35 <= d.advance <= 1.75 && 0.0 <= d.chance < 1.0 && 0.0 <= d.offline < 1.0 &&
    d.material < |Materials| && d.file < |Filenames|
  }

  /** The part of a device that an update changes; `printStart` is a clock
      reading. */
  datatype Snapshot = Snapshot(status: Status, progress: real, filename: Option<string>,
                               material: string, printStart: Option<int>)

  function MinReal(a: real, b: real): real {
    if a < b then a else b
  }

  /** The rare event that takes a device that is not already offline off the
      network and forgets its file. */
  function OfflineEvent(s: Snapshot, d: Draws): (r: Snapshot)
    ensures r.status == Offline <==> s.status == Offline || d.offline < 0.01
    ensures r.status != Offline ==> r == s
    ensures s.status != Offline && r.status == Offline ==> r == s.(status := Offline, filename := None)
  {
    if s.status != Offline && d.offline < 0.01 then s.(status := Offline, filename := None) else s
  }

  /** One update: the new snapshot, and whether a print has just completed.
      `now` is the clock reading at the update. */
  function Step(s: Snapshot, d: Draws, now: int): (Snapshot, bool)
    requires ValidDraws(d)
  {
    match s.status
    case Printing =>
      var p := MinReal(100.0, s.progress + d.advance);
      if p >= 99.5 then (s.(status := Cooling, progress := 100.0), true)
      else (OfflineEvent(s.(progress := p), d), false)
    case Heating =>
      var t := if d.chance < 0.4 then s.(status := Printing, progress := 0.0, printStart := Some(now)) else s;
      (OfflineEvent(t, d), false)
    case Cooling =>
      var t := if d.chance < 0.3 then s.(status := Idle, filename := None) else s;
      (OfflineEvent(t, d), false)
    case Idle =>
      var t := if d.chance < 0.05 then
                 s.(status := Heating, material := Materials[d.material],
                    filename := Some(Filenames[d.file]), printStart := Some(now))
               else s;
      (OfflineEvent(t, d), false)
    case Offline =>
      var t := if d.chance < 0.03 then s.(status := Idle) else s;
      (OfflineEvent(t, d), false)
  }

  /** What a device keeps true between updates: progress is a percentage, the
      material is one of the list, and a file is loaded exactly while the
      device is heating, printing or cooling. */
  predicate SnapshotOk(s: Snapshot) {
    0.0 <= s.progress <= 100.0 && s.material in Materials &&
    (s.filename.Some? <==> s.status in {Heating, Printing, Cooling}) &&
    (s.filename.Some? ==> s.filename.value in Filenames)
  }

  /** An update keeps the device consistent. */
  lemma StepKeepsOk(s: Snapshot, d: Draws, now: int)
    requires SnapshotOk(s) && ValidDraws(d)
    ensures SnapshotOk(Step(s, d, now).0)
  {
  }

  /** An update reports a completed job exactly when a printing device's
      progress reaches 99.5; it is then cooling at exactly 100 and the offline
      event is not drawn. */
  lemma CompletionOnlyFromPrinting(s: Snapshot, d: Draws, now: int)
    requires ValidDraws(d)
    ensures Step(s, d, now).1 <==> s.status == Printing && MinReal(100.0, s.progress + d.advance) >= 99.5
    ensures Step(s, d, now).1 ==>
              Step(s, d, now).0 == s.(status := Cooling, progress := 100.0)
  {
  }

  /** While a print goes on, its progress grows and never passes 100. */
  lemma ProgressAdvances(s: Snapshot, d: Draws, now: int)
    requires ValidDraws(d) && s.status == Printing
    ensures Step(s, d, now).0.progress <= 100.0
    ensures !Step(s, d, now).1 ==> Step(s, d, now).0.progress == s.progress + d.advance > s.progress
  {
  }

  /** The status after an update is the old one, the one its own branch leads
      to, or Offline: at most one state-specific transition happens. */
  function Next(st: Status): Status {
    match st
    case Printing => Cooling
    case Heating => Printing
    case Cooling => Idle
    case Idle => Heating
    case Offline => Idle
  }

  lemma OneTransition(s: Snapshot, d: Draws, now: int)
    requires ValidDraws(d)
    ensures var st := Step(s, d, now).0.status;
      st == s.status || st == Next(s.status) || st == Offline
  {
  }

  /** An offline device can only come back as idle. */
  lemma OfflineLeavesOnlyToIdle(s: Snapshot, d: Draws, now: int)
    requires ValidDraws(d) && s.status == Offline
    ensures Step(s, d, now).0.status in {Offline, Idle}
    ensures var r := Step(s, d, now).0;
      r == s || r == s.(status := Idle) || r == s.(filename := None)
  {
  }

  /** Heating turns into printing from zero progress, started now. */
  lemma HeatingStartsPrint(s: Snapshot, d: Draws, now: int)
    requires ValidDraws(d) && s.status == Heating && Step(s, d, now).0.status == Printing
    ensures Step(s, d, now).0 == s.(status := Printing, progress := 0.0, printStart := Some(now))
  {
  }

  /** An idle device starts heating with a fresh file and material from the
      lists, started now. */
  lemma IdleStartsJob(s: Snapshot, d: Draws, now: int)
    requires ValidDraws(d) && s.status == Idle && Step(s, d, now).0.status == Heating
    ensures var r := Step(s, d, now).0;
      r.filename == Some(Filenames[d.file]) && r.material == Materials[d.material] &&
      r.printStart == Some(now) && r.progress == s.progress
  {
  }

  /** A device that stops cooling, or goes offline, forgets its file. */
  lemma FileCleared(s: Snapshot, d: Draws, now: int)
    requires ValidDraws(d)
    ensures var r := Step(s, d, now).0;
      (s.status == Cooling && r.status == Idle ==> r.filename == None) &&
      (s.status != Offline && r.status == Offline ==> r.filename == None)
  {
  }

  // ---------------------------------------------------------------------------
  // The device object
  // ---------------------------------------------------------------------------

  class DeviceState {
    const deviceId: string
    var stateText: Status
    var material: string
    var filename: Option<string>
    var progressPercent: real
    var printStartTime: Option<int>
    const isMini: bool
    const isLarge: bool
    var cumulativeEnergyWh: real

    /** The fields an update changes. */
    function Snap(): Snapshot
      reads this
    {
      Snapshot(stateText, progressPercent, filename, material, printStartTime)
    }

    predicate Valid()
      reads this
    {
      isMini == Contains(deviceId, "Mini") &&
      isLarge == (Contains(deviceId, "XL") || Contains(deviceId, "Voron")) &&
      SnapshotOk(Snap())
    }

    /** A new device, idle or offline as drawn, with a drawn material and no
        file. */
    constructor(id: string, startOffline: bool, materialPick: nat)
      requires materialPick < |Materials|
      ensures Valid() && deviceId == id
      ensures Snap() == Snapshot(if startOffline then Offline else Idle, 0.0, None,
                                 Materials[materialPick], None)
      ensures cumulativeEnergyWh == 0.0
    {
      deviceId := id;
      stateText := if startOffline then Offline else Idle;
      material := Materials[materialPick];
      filename := None;
      progressPercent := 0.0;
      printStartTime := None;
      isMini := Contains(id, "Mini");
      isLarge := Contains(id, "XL") || Contains(id, "Voron");
      cumulativeEnergyWh := 0.0;
    }

    function PrinterCategory(): (c: Category)
      reads this
      requires Valid()
      ensures c == CategoryOf(deviceId)
    {
      if isMini then Mini else if isLarge then Large else Standard
    }

    function GetPowerRange(): (r: (int, int))
      reads this
      requires Valid()
      ensures r == PowerRange(CategoryOf(deviceId))
      ensures r.0 < r.1
    {
      if isMini then (40, 80) else if isLarge then (120, 250) else (80, 150)
    }

    /** Nozzle and bed temperature for uniform draws `u`, `v` in [0, 1]: both
        present exactly while the device is hot. */
    function GetTemperatures(u: real, v: real): (r: (Option<real>, Option<real>))
      reads this
      ensures r.0.None? <==> stateText !in {Printing, Heating, Cooling}
      ensures r.1.None? <==> r.0.None?
      ensures 0.0 <= u <= 1.0 && 0.0 <= v <= 1.0 && stateText in {Printing, Heating} ==>
                180.0 <= r.0.value <= 230.0 && 50.0 <= r.1.value <= 80.0
      ensures 0.0 <= u <= 1.0 && 0.0 <= v <= 1.0 && stateText == Cooling ==>
                40.0 <= r.0.value <= 100.0 && 30.0 <= r.1.value <= 50.0
    {
      if stateText == Printing || stateText == Heating then
        (Some(180.0 + 50.0 * u), Some(50.0 + 30.0 * v))
      else if stateText == Cooling then
        (Some(40.0 + 60.0 * u), Some(30.0 + 20.0 * v))
      else
        (None, None)
    }

    /** One update of the device; reports whether a print has just completed. */
    method UpdateState(d: Draws, now: int) returns (completed: bool)
      requires Valid() && ValidDraws(d)
      modifies this
      ensures Valid()
      ensures (Snap(), completed) == Step(old(Snap()), d, now)
      ensures cumulativeEnergyWh == old(cumulativeEnergyWh)
    {
      StepKeepsOk(Snap(), d, now);
      if stateText == Printing {
        progressPercent := MinReal(100.0, progressPercent + d.advance);
        if progressPercent >= 99.5 {
          stateText := Cooling;
          progressPercent := 100.0;
          return true;
        }
      } else if stateText == Heating {
        if d.chance < 0.4 {
          stateText := Printing;
          progressPercent := 0.0;
          printStartTime := Some(now);
        }
      } else if stateText == Cooling {
        if d.chance < 0.3 {
          stateText := Idle;
          filename := None;
        }
      } else if stateText == Idle {
        if d.chance < 0.05 {
          stateText := Heating;
          material := Materials[d.material];
          filename := Some(Filenames[d.file]);
          printStartTime := Some(now);
        }
      } else if stateText == Offline {
        if d.chance < 0.03 {
          stateText := Idle;
        }
      }
      if stateText != Offline && d.offline < 0.01 {
        stateText := Offline;
        filename := None;
      }
      return false;
    }
  }
}
