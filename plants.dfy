/** The plant illustration of a job report: the growth stage reached by a job's
    energy use, the image file that shows it, and the clean-up of garbled file
    names that precedes the report. */
module Plants {
  import opened Common

  // ---------------------------------------------------------------------------
  // Growth stages
  // ---------------------------------------------------------------------------

  /** The energy (kWh) at which each stage from 2 upwards begins; the last entry
      is the length of one growth cycle. */
  const PlantThresholds: seq<real> :=
    [0.003, 0.006, 0.007, 0.0073, 0.008, 0.009, 0.01, 0.0133, 0.015, 0.0167,
     0.02, 0.333, 0.4, 0.467, 0.533, 0.6, 0.667, 0.833, 1.0]

  const CycleLength: real := 1.0

  /** The table is strictly increasing and ends with the cycle length. */
  lemma ThresholdsAscending()
    ensures |PlantThresholds| == 19 && PlantThresholds[18] == CycleLength
    ensures forall i, j :: 0 <= i < j < |PlantThresholds| ==> PlantThresholds[i] < PlantThresholds[j]
  {
    var t := PlantThresholds;
    assert forall i :: 0 <= i < 18 ==> t[i] < t[i + 1];
    forall i, j | 0 <= i < j < |t|
      ensures t[i] < t[j]
    {
      StepsAscend(t, i, j);
    }
  }

  lemma {:induction false} StepsAscend(t: seq<real>, i: nat, j: nat)
    requires i < j < |t|
    requires forall k :: 0 <= k < |t| - 1 ==> t[k] < t[k + 1]
    ensures t[i] < t[j]
    decreases j - i
  {
    if i + 1 < j {
      StepsAscend(t, i + 1, j);
    }
  }

  /** The energy figure handed to the stage lookup: a number, or anything else
      (absent, text, ...), which counts as 0. A boolean is the number 0 or 1. */
  datatype Kwh = Number(x: real) | NotNumber

  /** The position of the energy within the current cycle: `kwh % 1.0`, which in
      Python lies in [0, 1) for every finite number, negative ones included. */
  function Effective(kwh: Kwh): (e: real)
    ensures 0.0 <= e < CycleLength
    ensures kwh.NotNumber? ==> e == 0.0
  {
    match kwh
    case Number(x) => x - x.Floor as real
    case NotNumber => 0.0
  }

  /** How many of the first `k` thresholds the energy has reached. */
  function Reached(e: real, k: nat): (n: nat)
    requires k <= |PlantThresholds|
    ensures n <= k
  {
    if k == 0 then 0
    else Reached(e, k - 1) + (if PlantThresholds[k - 1] <= e then 1 else 0)
  }

  /** The growth stage of an energy position: one more than the number of
      thresholds reached, never above 19. */
  function Stage(e: real): (s: nat)
    ensures 1 <= s <= 19
  {
    var n := Reached(e, |PlantThresholds|);
    if n == 0 then 1 else if n + 1 < 19 then n + 1 else 19
  }

  /** The stage shown for a job's energy figure. */
  function PlantStage(kwh: Kwh): (s: nat)
    ensures 1 <= s <= 19
  {
    Stage(Effective(kwh))
  }

  /** The lookup of the report service: stage 1 below the first threshold,
      otherwise a search from the top of the table for the last threshold
      reached. */
  method GetPlantStage(kwh: Kwh) returns (stage: nat)
    ensures stage == PlantStage(kwh)
  {
    var t := PlantThresholds;
    var e := Effective(kwh);
    if e < t[0] {
      ReachedNone(e, |t|);
      return 1;
    }
    // the search below always succeeds, at the latest at the first threshold,
    // so the stage it starts from is never returned
    stage := 1;
    var i := |t|;
    while i > 0 && stage == 1
      invariant 0 <= i <= |t|
      invariant stage == 1 ==> forall j :: i <= j < |t| ==> e < t[j]
      invariant stage != 1 ==> stage == PlantStage(kwh)
      decreases i
    {
      i := i - 1;
      if e >= t[i] {
        ReachedUpTo(e, i);
        stage := if i + 2 < 19 then i + 2 else 19;
      }
    }
  }

  /** Below the first threshold nothing is reached. */
  lemma {:induction false} ReachedNone(e: real, k: nat)
    requires k <= |PlantThresholds| && e < PlantThresholds[0]
    ensures Reached(e, k) == 0
  {
    ThresholdsAscending();
    if k > 0 {
      ReachedNone(e, k - 1);
      if k - 1 > 0 {
        assert PlantThresholds[0] < PlantThresholds[k - 1];
      }
    }
  }

  /** When threshold `i` is reached and no later one is, exactly `i + 1` are. */
  lemma ReachedUpTo(e: real, i: nat)
    requires i < |PlantThresholds| && PlantThresholds[i] <= e
    requires forall j :: i < j < |PlantThresholds| ==> e < PlantThresholds[j]
    ensures Reached(e, |PlantThresholds|) == i + 1
  {
    ReachedBelow(e, i, i + 1);
    ReachedAbove(e, i + 1, |PlantThresholds|);
  }

  lemma {:induction false} ReachedBelow(e: real, i: nat, k: nat)
    requires i < |PlantThresholds| && PlantThresholds[i] <= e && k <= i + 1
    ensures Reached(e, k) == k
  {
    ThresholdsAscending();
    if k > 0 {
      ReachedBelow(e, i, k - 1);
      assert PlantThresholds[k - 1] <= PlantThresholds[i];
    }
  }

  lemma {:induction false} ReachedAbove(e: real, lo: nat, k: nat)
    requires lo <= k <= |PlantThresholds|
    requires forall j :: lo <= j < |PlantThresholds| ==> e < PlantThresholds[j]
    ensures Reached(e, k) == Reached(e, lo)
  {
    if k > lo {
      ReachedAbove(e, lo, k - 1);
    }
  }

  /** Reaching `n` thresholds means reaching exactly the first `n`. */
  lemma {:induction false} ReachedPrefix(e: real, k: nat)
    requires k <= |PlantThresholds|
    ensures var n := Reached(e, k);
      (n > 0 ==> PlantThresholds[n - 1] <= e) && (n < k ==> e < PlantThresholds[n])
  {
    ThresholdsAscending();
    if k > 0 {
      ReachedPrefix(e, k - 1);
    }
  }

  /** Stage 1 is shown exactly below the first threshold. */
  lemma StageOneIff(kwh: Kwh)
    ensures PlantStage(kwh) == 1 <==> Effective(kwh) < PlantThresholds[0]
  {
    var e := Effective(kwh);
    ReachedPrefix(e, |PlantThresholds|);
    if e < PlantThresholds[0] {
      ReachedNone(e, |PlantThresholds|);
    }
  }

  /** Stage `s` from 2 to 19 is shown exactly while the energy position lies
      between threshold `s - 2` and threshold `s - 1`; the largest reached
      threshold `i` therefore gives stage `min(i + 2, 19)`. */
  lemma StageInterval(kwh: Kwh, s: nat)
    requires 2 <= s <= 19
    ensures PlantStage(kwh) == s <==>
              PlantThresholds[s - 2] <= Effective(kwh) < PlantThresholds[s - 1]
  {
    var e := Effective(kwh);
    StageBand(e, s);
  }

  lemma StageBand(e: real, s: nat)
    requires 0.0 <= e < CycleLength && 2 <= s <= 19
    ensures Stage(e) == s <==> PlantThresholds[s - 2] <= e < PlantThresholds[s - 1]
  {
    StageCount(e);
    var t := PlantThresholds;
    if Stage(e) == s {
      ReachedPrefix(e, |t|);
    }
    if t[s - 2] <= e < t[s - 1] {
      BandReached(e, s - 2);
    }
  }

  lemma BandReached(e: real, i: nat)
    requires i + 1 < |PlantThresholds| && PlantThresholds[i] <= e < PlantThresholds[i + 1]
    ensures Reached(e, |PlantThresholds|) == i + 1
  {
    ThresholdsAscending();
    ReachedUpTo(e, i);
  }

  /** Within a cycle the stage is one more than the number of thresholds
      reached: the last threshold, the cycle length, is never reached. */
  lemma StageCount(e: real)
    requires 0.0 <= e < CycleLength
    ensures Stage(e) == Reached(e, |PlantThresholds|) + 1
  {
    ReachedPrefix(e, |PlantThresholds|);
  }

  /** A non-numeric energy figure shows the first stage. */
  lemma NotNumberIsStageOne()
    ensures PlantStage(NotNumber) == 1
  {
    StageOneIff(NotNumber);
  }

  /** More energy within a cycle never shows an earlier stage. */
  lemma StageMonotone(e1: real, e2: real)
    requires e1 <= e2
    ensures Stage(e1) <= Stage(e2)
  {
    ReachedMonotone(e1, e2, |PlantThresholds|);
  }

  lemma {:induction false} ReachedMonotone(e1: real, e2: real, k: nat)
    requires e1 <= e2 && k <= |PlantThresholds|
    ensures Reached(e1, k) <= Reached(e2, k)
  {
    if k > 0 {
      ReachedMonotone(e1, e2, k - 1);
    }
  }

  /** The stage only depends on the energy modulo the cycle length. */
  lemma StageCycles(x: real, n: int)
    ensures PlantStage(Number(x + n as real)) == PlantStage(Number(x))
  {
    var y := x + n as real;
    assert y.Floor == x.Floor + n;
    assert Effective(Number(y)) == Effective(Number(x));
  }

  // ---------------------------------------------------------------------------
  // Plant image path
  // ---------------------------------------------------------------------------

  /** The image folder for a plant type; an absent or empty type is the
      generic plant, and the comparison ignores ASCII case. */
  function PlantFolder(plantType: Option<string>): (f: string)
    ensures f in {"corn", "sunflower", "tomato", "generic_plant"}
    ensures f == "generic_plant" <==>
              plantType.None? || Lower(plantType.value) !in {"corn", "sunflower", "tomato"}
    ensures f != "generic_plant" ==> f == Lower(plantType.value)
  {
    var clean := if plantType.None? || plantType.value == "" then "generic_plant" else Lower(plantType.value);
    if clean == "corn" then "corn"
    else if clean == "sunflower" then "sunflower"
    else if clean == "tomato" then "tomato"
    else "generic_plant"
  }

  /** The number of stage images that exist for each folder. */
  function MaxStages(folder: string): (m: nat)
    ensures 7 <= m <= 21
  {
    if folder == "corn" then 8
    else if folder == "sunflower" then 7
    else if folder == "tomato" then 12
    else 21
  }

  /** The stage whose picture is shown: the energy's stage, capped at the last
      image of the plant. */
  function ShownStage(plantType: Option<string>, kwh: Kwh): (s: nat)
    ensures 1 <= s <= MaxStages(PlantFolder(plantType))
    ensures s <= PlantStage(kwh)
    ensures s < PlantStage(kwh) ==> s == MaxStages(PlantFolder(plantType))
  {
    Max(1, Min(PlantStage(kwh), MaxStages(PlantFolder(plantType))))
  }

  function Min(a: int, b: int): int {
    if a < b then a else b
  }

  function Max(a: int, b: int): int {
    if a < b then b else a
  }

  /** Python's `str(n)` for a natural number. */
  function DecimalText(n: nat): (s: string)
    ensures 1 <= |s|
    ensures forall i :: 0 <= i < |s| ==> IsDigit(s[i])
    decreases n
  {
    var d := ['0' + (n % 10) as char];
    if n < 10 then d else DecimalText(n / 10) + d
  }

  /** The number a string of decimal digits denotes. */
  function DecimalValue(s: string): (n: nat)
    requires forall i :: 0 <= i < |s| ==> IsDigit(s[i])
    decreases |s|
  {
    if s == [] then 0 else DecimalValue(s[..|s| - 1]) * 10 + DigitValue(s[|s| - 1])
  }

  /** Python's `s.zfill(2)` for a string without a sign. */
  function ZeroPad2(s: string): (r: string)
    ensures |r| == if |s| < 2 then 2 else |s|
    ensures r[|r| - |s|..] == s
    ensures forall i :: 0 <= i < |r| - |s| ==> r[i] == '0'
  {
    if |s| == 0 then "00" else if |s| == 1 then "0" + s else s
  }

  /** Printing a number and reading it back gives the number. */
  lemma {:induction false} DecimalRoundTrip(n: nat)
    ensures DecimalValue(DecimalText(n)) == n
    decreases n
  {
    var s := DecimalText(n);
    if n >= 10 {
      DecimalRoundTrip(n / 10);
      assert s[..|s| - 1] == DecimalText(n / 10);
    }
  }

  /** Leading zeros do not change the value. */
  lemma {:induction false} LeadingZero(s: string)
    requires forall i :: 0 <= i < |s| ==> IsDigit(s[i])
    ensures DecimalValue("0" + s) == DecimalValue(s)
    decreases |s|
  {
    if s != [] {
      LeadingZero(s[..|s| - 1]);
      assert ("0" + s)[..|s|] == "0" + s[..|s| - 1];
    }
  }

  /** The padded stage number has two digits for every stage that exists and
      reads back as the stage. */
  lemma PaddedStage(n: nat)
    requires n < 100
    ensures var p := ZeroPad2(DecimalText(n));
      |p| == 2 && (forall i :: 0 <= i < 2 ==> IsDigit(p[i])) && DecimalValue(p) == n
  {
    DecimalRoundTrip(n);
    if n < 10 {
      LeadingZero(DecimalText(n));
    } else {
      TwoDigits(n);
    }
  }

  lemma TwoDigits(n: nat)
    requires 10 <= n < 100
    ensures |DecimalText(n)| == 2
  {
    assert DecimalText(n) == DecimalText(n / 10) + ['0' + (n % 10) as char];
  }

  const ArtRoot: string := "/app/artistic-resources"

  /** `file://` followed by `os.path.join(ART_ROOT, "plants", folder, name)`. */
  function ImagePath(folder: string, stage: nat): (r: string)
  {
    "file://" + ArtRoot + "/plants/" + folder + "/" + folder + "_stage_" + ZeroPad2(DecimalText(stage)) + ".png"
  }

  /** The report's plant picture for a plant type and the job's energy: the image of
      one of the four plant folders, whose two stage digits name a stage that folder
      has. */
  function GetPlantImageSrc(plantType: Option<string>, kwh: Kwh): (r: string)
    ensures PlantFolder(plantType) in {"corn", "sunflower", "tomato", "generic_plant"}
    ensures |r| >= 6 && IsDigit(r[|r| - 6]) && IsDigit(r[|r| - 5])
    ensures r == "file://" + ArtRoot + "/plants/" + PlantFolder(plantType) + "/" + PlantFolder(plantType)
                 + "_stage_" + r[|r| - 6..|r| - 4] + ".png"
    ensures DecimalValue(r[|r| - 6..|r| - 4]) == ShownStage(plantType, kwh)
    ensures 1 <= ShownStage(plantType, kwh) <= MaxStages(PlantFolder(plantType))
  {
    var folder := PlantFolder(plantType);
    var stage := ShownStage(plantType, kwh);
    ImagePathDigits(folder, stage);
    ImagePath(folder, stage)
  }

  /** The two characters before `.png` are the stage's padded digits. */
  lemma ImagePathDigits(folder: string, stage: nat)
    requires stage < 100
    ensures var r := ImagePath(folder, stage);
      |r| >= 6 && IsDigit(r[|r| - 6]) && IsDigit(r[|r| - 5]) &&
      r == "file://" + ArtRoot + "/plants/" + folder + "/" + folder + "_stage_" + r[|r| - 6..|r| - 4] + ".png" &&
      DecimalValue(r[|r| - 6..|r| - 4]) == stage
  {
    var d := ZeroPad2(DecimalText(stage));
    PaddedStage(stage);
    var head := "file://" + ArtRoot + "/plants/" + folder + "/" + folder + "_stage_";
    var r := ImagePath(folder, stage);
    assert r == head + d + ".png";
    MiddleOf(head, d, ".png");
  }

  lemma MiddleOf(head: string, d: string, tail: string)
    requires |d| == 2 && |tail| == 4
    ensures var r := head + d + tail;
      |r| >= 6 && r[|r| - 6..|r| - 4] == d && r[|r| - 6] == d[0] && r[|r| - 5] == d[1]
  {
  }

  /** Folder and stage can be read back from the picture path: the last six
      characters before `.png` are the two stage digits, and the length of the
      path tells the folder apart. */
  lemma ImagePathInjective(f1: string, s1: nat, f2: string, s2: nat)
    requires f1 in {"corn", "sunflower", "tomato", "generic_plant"}
    requires f2 in {"corn", "sunflower", "tomato", "generic_plant"}
    requires s1 < 100 && s2 < 100
    requires ImagePath(f1, s1) == ImagePath(f2, s2)
    ensures f1 == f2 && s1 == s2
  {
    var p := ImagePath(f1, s1);
    PaddedStage(s1);
    PaddedStage(s2);
    var d1 := ZeroPad2(DecimalText(s1));
    var d2 := ZeroPad2(DecimalText(s2));
    assert |p| == 7 + |ArtRoot| + 8 + 2 * |f1| + 1 + 7 + 2 + 4;
    assert |ImagePath(f2, s2)| == 7 + |ArtRoot| + 8 + 2 * |f2| + 1 + 7 + 2 + 4;
    assert |f1| == |f2|;
    assert f1 == f2;
    assert p[|p| - 6..|p| - 4] == d1;
    assert ImagePath(f2, s2)[|p| - 6..|p| - 4] == d2;
  }

  /** The picture never names a stage image that does not exist. */
  lemma ImageStageExists(plantType: Option<string>, kwh: Kwh)
    ensures exists f, s: nat :: GetPlantImageSrc(plantType, kwh) == ImagePath(f, s) &&
              f in {"corn", "sunflower", "tomato", "generic_plant"} && 1 <= s <= MaxStages(f)
  {
    var f := PlantFolder(plantType);
    var s := ShownStage(plantType, kwh);
    assert GetPlantImageSrc(plantType, kwh) == ImagePath(f, s);
  }

  /** Every sunflower picture shows one of its seven stages, the last of them
      once the energy has reached stage 7. */
  lemma SunflowerCapped(kwh: Kwh)
    ensures ShownStage(Some("Sunflower"), kwh) == (if PlantStage(kwh) < 7 then PlantStage(kwh) else 7)
  {
    assert Lower("Sunflower") == "sunflower";
  }

  /** Plant types that differ only in ASCII case give the same picture. */
  lemma PlantTypeIgnoresCase(t1: string, t2: string, kwh: Kwh)
    requires t1 != "" && t2 != "" && Lower(t1) == Lower(t2)
    ensures GetPlantImageSrc(Some(t1), kwh) == GetPlantImageSrc(Some(t2), kwh)
  {
  }

  // ---------------------------------------------------------------------------
  // Garbled file names
  // ---------------------------------------------------------------------------

  /** A stored file name: text, or a value of another kind (absent, a number),
      which is handed back as it came. */
  datatype RawName = Text(s: string) | NotText

  /** The marker that starts a garbled name and the quote that ends it. */
  const GarbledPrefix: string := "namen_b'"

  /** Python's slice `s[9:-1]`: empty when the bounds cross. */
  function Payload(s: string): (r: string)
    ensures |r| == if |s| >= 10 then |s| - 10 else 0
    ensures |s| >= 10 ==> s == s[..9] + r + [s[|s| - 1]]
  {
    if 9 <= |s| - 1 then s[9..|s| - 1] else []
  }

  /** `", ".join(filter(None, ids))`. */
  function JoinIds(ids: seq<string>): (r: string)
    ensures r == [] <==> forall i :: 0 <= i < |ids| ==> ids[i] == []
    decreases |ids|
  {
    if ids == [] then []
    else
      var rest := JoinIds(ids[1..]);
      if ids[0] == [] then rest
      else if rest == [] then ids[0]
      else ids[0] + ", " + rest
  }

  /** The clean name of a garbled file name. `decode` stands for base64
      decoding, UTF-8 decoding, quote replacement, JSON parsing and the
      extraction of each part's model id; `None` is any exception on the way. */
  function CleanFilename(raw: RawName, decode: string -> Option<seq<string>>): (r: RawName)
    ensures raw.NotText? || raw.s == [] ==> r == raw
    ensures raw.Text? && !(StartsWith(raw.s, GarbledPrefix) && EndsWith(raw.s, "'")) ==> r == raw
    ensures raw.Text? && decode(Payload(raw.s)).None? ==> r == raw
    ensures r != raw ==>
              raw.Text? && StartsWith(raw.s, GarbledPrefix) && EndsWith(raw.s, "'") &&
              decode(Payload(raw.s)).Some? &&
              r == Text(var name := JoinIds(decode(Payload(raw.s)).value);
                        if name == [] then "Multi-Part Print" else name)
  {
    match raw
    case NotText => raw
    case Text(s) =>
      if s == [] then raw
      else if StartsWith(s, GarbledPrefix) && EndsWith(s, "'") then
        match decode(Payload(s))
        case None => raw
        case Some(ids) =>
          var name := JoinIds(ids);
          Text(if name == [] then "Multi-Part Print" else name)
      else raw
  }

  /** A garbled name whose parts carry no model id becomes "Multi-Part Print",
      and one whose parts do becomes their ids joined by commas. */
  lemma CleanedName(s: string, decode: string -> Option<seq<string>>, ids: seq<string>)
    requires StartsWith(s, GarbledPrefix) && EndsWith(s, "'")
    requires decode(Payload(s)) == Some(ids)
    ensures (forall i :: 0 <= i < |ids| ==> ids[i] == []) ==>
              CleanFilename(Text(s), decode) == Text("Multi-Part Print")
    ensures (exists i :: 0 <= i < |ids| && ids[i] != []) ==>
              CleanFilename(Text(s), decode) == Text(JoinIds(ids))
  {
  }

  /** The character right after the marker is not part of what is decoded: two
      names that differ only there are cleaned alike. */
  lemma NinthCharacterSkipped(s: string, c: char, decode: string -> Option<seq<string>>)
    requires |s| >= 10
    ensures var t := s[8 := c];
      Payload(t) == Payload(s) &&
      (StartsWith(s, GarbledPrefix) && EndsWith(s, "'") <==> StartsWith(t, GarbledPrefix) && EndsWith(t, "'"))
  {
    var t := s[8 := c];
    assert t[..8] == s[..8];
    assert t[|t| - 1..] == s[|s| - 1..];
  }
}
