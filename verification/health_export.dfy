/**
 * The Apple Health export converter: it walks the export's XML tree, turns every
 * `Record`, `Workout`, `ClinicalRecord` and `ActivitySummary` element into a flat
 * entry (missing attributes read as the empty string), folds each element's
 * `MetadataEntry` children into a dictionary, and summarises the result.
 *
 * Parsing the file, writing JSON and the command line are left to the caller:
 * the input here is the element tree, with each element's attributes as a map.
 */
module HealthExport {
  import opened Wrappers

  /** An XML element: its tag, its attributes, and its child elements in document order. */
  datatype Element = Element(tag: string, attrs: map<string, string>, children: seq<Element>)

  /** `element.attrib.get(name, '')`. */
  function Attr(e: Element, name: string): (v: string)
    ensures name in e.attrs ==> v == e.attrs[name]
    ensures name !in e.attrs ==> v == ""
  {
    if name in e.attrs then e.attrs[name] else ""
  }

  /** Every element below `e`, in document order (parents before their children). */
  function Descendants(e: Element): (d: seq<Element>)
    decreases e, |e.children| + 1
  {
    DescendantsFrom(e, 0)
  }

  /** The descendants of `e` that lie under its children from index `i` on. */
  function DescendantsFrom(e: Element, i: nat): (d: seq<Element>)
    decreases e, |e.children| - i
  {
    if i >= |e.children| then []
    else [e.children[i]] + Descendants(e.children[i]) + DescendantsFrom(e, i + 1)
  }

  /** The elements of `es` with tag `tag`, in order. */
  function WithTag(es: seq<Element>, tag: string): (r: seq<Element>)
    ensures |r| <= |es|
    ensures forall i :: 0 <= i < |r| ==> r[i].tag == tag
    ensures forall x :: x in r <==> x in es && x.tag == tag
  {
    if es == [] then []
    else if es[0].tag == tag then [es[0]] + WithTag(es[1..], tag)
    else WithTag(es[1..], tag)
  }

  /** `e.findall('.//' + tag)`: every descendant with that tag, in document order. */
  function FindAll(e: Element, tag: string): (r: seq<Element>)
    ensures forall x :: x in r <==> x in Descendants(e) && x.tag == tag
  {
    WithTag(Descendants(e), tag)
  }

  /** `e.find('.//' + tag)`: the first such descendant, if any. */
  function Find(e: Element, tag: string): (r: Option<Element>)
    ensures r.None? <==> FindAll(e, tag) == []
    ensures r.Some? ==> r.value == FindAll(e, tag)[0]
  {
    var all := FindAll(e, tag);
    if all == [] then None else Some(all[0])
  }

  // Tags.
  const MeTag: string := "Me"
  const RecordTag: string := "Record"
  const WorkoutTag: string := "Workout"
  const WorkoutEventTag: string := "WorkoutEvent"
  const WorkoutRouteTag: string := "WorkoutRoute"
  const ClinicalRecordTag: string := "ClinicalRecord"
  const ActivitySummaryTag: string := "ActivitySummary"
  const MetadataEntryTag: string := "MetadataEntry"

  // Attribute names.
  const KeyAttr: string := "key"
  const ValueAttr: string := "value"
  const TypeAttr: string := "type"
  const ExportDateAttr: string := "exportDate"
  const DateOfBirthAttr: string := "HKCharacteristicTypeIdentifierDateOfBirth"
  const BiologicalSexAttr: string := "HKCharacteristicTypeIdentifierBiologicalSex"
  const BloodTypeAttr: string := "HKCharacteristicTypeIdentifierBloodType"
  const SkinTypeAttr: string := "HKCharacteristicTypeIdentifierFitzpatrickSkinType"
  const SourceNameAttr: string := "sourceName"
  const SourceVersionAttr: string := "sourceVersion"
  const DeviceAttr: string := "device"
  const UnitAttr: string := "unit"
  const CreationDateAttr: string := "creationDate"
  const StartDateAttr: string := "startDate"
  const EndDateAttr: string := "endDate"
  const ActivityTypeAttr: string := "workoutActivityType"
  const DurationAttr: string := "duration"
  const DurationUnitAttr: string := "durationUnit"
  const TotalDistanceAttr: string := "totalDistance"
  const TotalDistanceUnitAttr: string := "totalDistanceUnit"
  const TotalEnergyAttr: string := "totalEnergyBurned"
  const TotalEnergyUnitAttr: string := "totalEnergyBurnedUnit"
  const DateAttr: string := "date"
  const IdentifierAttr: string := "identifier"
  const SourceUrlAttr: string := "sourceURL"
  const FhirVersionAttr: string := "fhirVersion"
  const ReceivedDateAttr: string := "receivedDate"
  const ResourcePathAttr: string := "resourceFilePath"
  const DateComponentsAttr: string := "dateComponents"
  const ActiveEnergyAttr: string := "activeEnergyBurned"
  const ActiveEnergyGoalAttr: string := "activeEnergyBurnedGoal"
  const ActiveEnergyUnitAttr: string := "activeEnergyBurnedUnit"
  const ExerciseTimeAttr: string := "appleExerciseTime"
  const ExerciseTimeGoalAttr: string := "appleExerciseTimeGoal"
  const StandHoursAttr: string := "appleStandHours"
  const StandHoursGoalAttr: string := "appleStandHoursGoal"

  /** The prefixes of quantity and category type identifiers. */
  const QuantityPrefix: string := "HKQuantityTypeIdentifier"
  const CategoryPrefix: string := "HKCategoryTypeIdentifier"

  /** The readable names of the common type identifiers. */
  const TypeMapping: map<string, string> := map[
    "HKQuantityTypeIdentifierHeight" := "height",
    "HKQuantityTypeIdentifierBodyMass" := "weight",
    "HKQuantityTypeIdentifierHeartRate" := "heart_rate",
    "HKQuantityTypeIdentifierStepCount" := "step_count",
    "HKQuantityTypeIdentifierDistanceWalkingRunning" := "distance_walking_running",
    "HKQuantityTypeIdentifierActiveEnergyBurned" := "active_energy_burned",
    "HKQuantityTypeIdentifierBasalEnergyBurned" := "basal_energy_burned",
    "HKCategoryTypeIdentifierSleepAnalysis" := "sleep_analysis",
    "HKQuantityTypeIdentifierRestingHeartRate" := "resting_heart_rate",
    "HKQuantityTypeIdentifierVO2Max" := "vo2_max",
    "HKQuantityTypeIdentifierFlightsClimbed" := "flights_climbed"]

  /** `pat` occurs in `s` at index `i`. */
  predicate OccursAt(s: string, pat: string, i: nat) {
    i + |pat| <= |s| && s[i..i + |pat|] == pat
  }

  ghost predicate Occurs(s: string, pat: string) {
    exists i: nat :: OccursAt(s, pat, i)
  }

  /**
   * `s.replace(pat, rep)` in Python: one pass from the left, each occurrence
   * replaced and the scan resumed after it.
   */
  function ReplaceAll(s: string, pat: string, rep: string): (r: string)
    requires pat != []
    ensures rep == pat ==> r == s
    ensures |rep| == |pat| ==> |r| == |s|
    decreases |s|
  {
    if |s| < |pat| then s
    else if s[..|pat|] == pat then
      var r := rep + ReplaceAll(s[|pat|..], pat, rep);
      assert rep == pat ==> r == s[..|pat|] + s[|pat|..];
      r
    else [s[0]] + ReplaceAll(s[1..], pat, rep)
  }

  /** Where the pattern does not occur, nothing is replaced. */
  lemma {:induction false} ReplaceAbsent(s: string, pat: string, rep: string)
    requires pat != []
    requires !Occurs(s, pat)
    ensures ReplaceAll(s, pat, rep) == s
    decreases |s|
  {
    if |s| >= |pat| {
      assert !OccursAt(s, pat, 0);
      assert s[..|pat|] != pat;
      forall i: nat | OccursAt(s[1..], pat, i)
        ensures false
      {
        assert s[i + 1..i + 1 + |pat|] == s[1..][i..i + |pat|];
        assert OccursAt(s, pat, i + 1);
      }
      ReplaceAbsent(s[1..], pat, rep);
      assert s == [s[0]] + s[1..];
    }
  }

  /** A leading occurrence of the pattern is replaced and the scan goes on after it. */
  lemma ReplaceLeading(pat: string, s: string, rep: string)
    requires pat != []
    ensures ReplaceAll(pat + s, pat, rep) == rep + ReplaceAll(s, pat, rep)
  {
    assert (pat + s)[..|pat|] == pat;
    assert (pat + s)[|pat|..] == s;
  }

  /**
   * `_normalize_data_type`: the table's name for a known identifier; otherwise the
   * identifier with every occurrence of the two prefixes removed, quantity first.
   */
  function NormalizeDataType(original: string): (t: string)
    ensures original in TypeMapping ==> t == TypeMapping[original]
  {
    if original in TypeMapping then TypeMapping[original]
    else ReplaceAll(ReplaceAll(original, QuantityPrefix, ""), CategoryPrefix, "")
  }

  /** An identifier outside the table that holds neither prefix comes back unchanged. */
  lemma NormalizeKeepsPlainNames(original: string)
    requires original !in TypeMapping
    requires !Occurs(original, QuantityPrefix) && !Occurs(original, CategoryPrefix)
    ensures NormalizeDataType(original) == original
  {
    ReplaceAbsent(original, QuantityPrefix, "");
    ReplaceAbsent(original, CategoryPrefix, "");
  }

  /**
   * An unknown quantity identifier loses its prefix, e.g. the one for oxygen
   * saturation becomes `OxygenSaturation`.
   */
  lemma NormalizeStripsQuantityPrefix(name: string)
    requires QuantityPrefix + name !in TypeMapping
    requires !Occurs(name, QuantityPrefix) && !Occurs(name, CategoryPrefix)
    ensures NormalizeDataType(QuantityPrefix + name) == name
  {
    ReplaceLeading(QuantityPrefix, name, "");
    ReplaceAbsent(name, QuantityPrefix, "");
    assert "" + name == name;
    ReplaceAbsent(name, CategoryPrefix, "");
  }

  /**
   * An unknown category identifier loses its prefix, e.g. the one for mindful
   * sessions becomes `MindfulSession`: the quantity pass finds nothing to remove.
   */
  lemma NormalizeStripsCategoryPrefix(name: string)
    requires CategoryPrefix + name !in TypeMapping
    requires !Occurs(name, QuantityPrefix) && !Occurs(name, CategoryPrefix)
    ensures NormalizeDataType(CategoryPrefix + name) == name
  {
    NoQuantityPrefixAcross(name);
    ReplaceAbsent(CategoryPrefix + name, QuantityPrefix, "");
    ReplaceLeading(CategoryPrefix, name, "");
    ReplaceAbsent(name, CategoryPrefix, "");
    assert "" + name == name;
  }

  /** A quantity prefix can neither lie inside the category prefix nor straddle its end. */
  lemma NoQuantityPrefixAcross(name: string)
    requires !Occurs(name, QuantityPrefix)
    ensures !Occurs(CategoryPrefix + name, QuantityPrefix)
  {
    var s := CategoryPrefix + name;
    var n := |CategoryPrefix|;
    forall i: nat | OccursAt(s, QuantityPrefix, i)
      ensures false
    {
      if i < n {
        NotInsideCategoryPrefix(name, i);
      } else {
        assert name[i - n..i - n + |QuantityPrefix|] == s[i..i + |QuantityPrefix|];
        assert OccursAt(name, QuantityPrefix, i - n);
      }
    }
  }

  /** The category prefix holds `H` only at its start, and there it continues `HKC`, not `HKQ`. */
  lemma NotInsideCategoryPrefix(name: string, i: nat)
    requires i < |CategoryPrefix|
    ensures !OccursAt(CategoryPrefix + name, QuantityPrefix, i)
  {
    var s := CategoryPrefix + name;
    if i + |QuantityPrefix| <= |s| {
      var window := s[i..i + |QuantityPrefix|];
      assert window[0] == s[i] == CategoryPrefix[i];
      if i == 0 {
        assert window[2] == CategoryPrefix[2];
      }
    }
  }

  const HeartRateType: string := "HKQuantityTypeIdentifierHeartRate"

  /** The heart-rate identifier is reported as `heart_rate`. */
  lemma HeartRateNormalized()
    ensures NormalizeDataType(HeartRateType) == "heart_rate"
  {
  }

  /** The key and value of a `MetadataEntry` element, each `''` when absent. */
  function EntryKey(e: Element): string {
    Attr(e, KeyAttr)
  }

  function EntryValue(e: Element): string {
    Attr(e, ValueAttr)
  }

  /** The metadata dictionary the loop over `MetadataEntry` elements builds: later entries overwrite earlier ones. */
  function FoldMetadata(entries: seq<Element>): (m: map<string, string>)
    ensures |m| <= |entries|
  {
    if entries == [] then map[]
    else
      var last := entries[|entries| - 1];
      FoldMetadata(entries[..|entries| - 1])[EntryKey(last) := EntryValue(last)]
  }

  /** The dictionary's keys are exactly the entries' keys. */
  lemma {:induction false} MetadataKeys(entries: seq<Element>)
    ensures forall k :: k in FoldMetadata(entries) <==> exists i :: 0 <= i < |entries| && EntryKey(entries[i]) == k
  {
    if entries != [] {
      var prefix := entries[..|entries| - 1];
      MetadataKeys(prefix);
      forall k | (exists i :: 0 <= i < |entries| && EntryKey(entries[i]) == k)
        ensures k in FoldMetadata(entries)
      {
        var i :| 0 <= i < |entries| && EntryKey(entries[i]) == k;
        if i < |prefix| {
          assert EntryKey(prefix[i]) == k;
        }
      }
      forall k | k in FoldMetadata(prefix)
        ensures exists i :: 0 <= i < |entries| && EntryKey(entries[i]) == k
      {
        var i :| 0 <= i < |prefix| && EntryKey(prefix[i]) == k;
        assert entries[i] == prefix[i];
      }
    }
  }

  /** For a key that several entries share, the value of the last of them wins. */
  lemma {:induction false} MetadataLastWins(entries: seq<Element>, i: nat)
    requires i < |entries|
    requires forall j :: i < j < |entries| ==> EntryKey(entries[j]) != EntryKey(entries[i])
    ensures EntryKey(entries[i]) in FoldMetadata(entries)
    ensures FoldMetadata(entries)[EntryKey(entries[i])] == EntryValue(entries[i])
  {
    var prefix := entries[..|entries| - 1];
    if i < |entries| - 1 {
      forall j | i < j < |prefix|
        ensures EntryKey(prefix[j]) != EntryKey(prefix[i])
      {
        assert prefix[j] == entries[j];
      }
      MetadataLastWins(prefix, i);
    }
  }

  /** The `metadata` block, filled in from the `Me` element. */
  datatype Profile = Profile(
    exportDate: string, dateOfBirth: string, biologicalSex: string, bloodType: string, skinType: string)

  /**
   * `_extract_metadata`: with a `Me` element the top-level metadata is replaced by
   * a new profile; without one it stays as it was.
   */
  function ExtractMetadata(root: Element, current: Option<Profile>): (m: Option<Profile>)
    ensures Find(root, MeTag).None? ==> m == current
    ensures Find(root, MeTag).Some? ==> m.Some? && m.value.exportDate == Attr(root, ExportDateAttr)
  {
    match Find(root, MeTag)
    case None => current
    case Some(me) =>
      Some(Profile(Attr(root, ExportDateAttr), Attr(me, DateOfBirthAttr), Attr(me, BiologicalSexAttr),
                   Attr(me, BloodTypeAttr), Attr(me, SkinTypeAttr)))
  }

  /** One entry of `records`. */
  datatype HealthRecord = HealthRecord(
    kind: string, originalType: string, sourceName: string, sourceVersion: string, device: string,
    unit: string, creationDate: string, startDate: string, endDate: string, value: string,
    metadata: map<string, string>)

  /**
   * Each record keeps its raw type beside the normalised one, a missing `type`
   * reads as `''`, and its metadata holds exactly the keys of the `MetadataEntry`
   * elements below it.
   */
  function RecordOf(e: Element): (r: HealthRecord)
    ensures r.kind == NormalizeDataType(r.originalType)
    ensures TypeAttr !in e.attrs ==> r.originalType == ""
    ensures TypeAttr in e.attrs ==> r.originalType == e.attrs[TypeAttr]
    ensures forall k :: k in r.metadata <==>
      exists i :: 0 <= i < |FindAll(e, MetadataEntryTag)| && EntryKey(FindAll(e, MetadataEntryTag)[i]) == k
  {
    MetadataKeys(FindAll(e, MetadataEntryTag));
    HealthRecord(
      NormalizeDataType(Attr(e, TypeAttr)), Attr(e, TypeAttr), Attr(e, SourceNameAttr),
      Attr(e, SourceVersionAttr), Attr(e, DeviceAttr), Attr(e, UnitAttr), Attr(e, CreationDateAttr),
      Attr(e, StartDateAttr), Attr(e, EndDateAttr), Attr(e, ValueAttr),
      FoldMetadata(FindAll(e, MetadataEntryTag)))
  }

  datatype WorkoutEvent = WorkoutEvent(kind: string, date: string, metadata: map<string, string>)

  datatype WorkoutRoute = WorkoutRoute(
    sourceName: string, sourceVersion: string, device: string, creationDate: string,
    startDate: string, endDate: string)

  /** One entry of `workouts`. */
  datatype Workout = Workout(
    activityType: string, duration: string, durationUnit: string, totalDistance: string,
    totalDistanceUnit: string, totalEnergyBurned: string, totalEnergyBurnedUnit: string,
    sourceName: string, sourceVersion: string, device: string, creationDate: string,
    startDate: string, endDate: string, metadata: map<string, string>,
    events: seq<WorkoutEvent>, routes: seq<WorkoutRoute>)

  /** An event's type and date, `''` when missing, and the metadata of the entries below it. */
  function EventOf(e: Element): (ev: WorkoutEvent)
    ensures TypeAttr !in e.attrs ==> ev.kind == ""
    ensures DateAttr !in e.attrs ==> ev.date == ""
    ensures forall k :: k in ev.metadata <==>
      exists i :: 0 <= i < |FindAll(e, MetadataEntryTag)| && EntryKey(FindAll(e, MetadataEntryTag)[i]) == k
  {
    MetadataKeys(FindAll(e, MetadataEntryTag));
    WorkoutEvent(Attr(e, TypeAttr), Attr(e, DateAttr), FoldMetadata(FindAll(e, MetadataEntryTag)))
  }

  /** A route read from its attributes; an element without any reads as six empty fields. */
  function RouteOf(e: Element): (ro: WorkoutRoute)
    ensures e.attrs == map[] ==> ro == WorkoutRoute("", "", "", "", "", "")
  {
    WorkoutRoute(Attr(e, SourceNameAttr), Attr(e, SourceVersionAttr), Attr(e, DeviceAttr),
                 Attr(e, CreationDateAttr), Attr(e, StartDateAttr), Attr(e, EndDateAttr))
  }

  /** The `WorkoutRoute` element an export holds for a route: each field under its attribute. */
  function RouteElement(ro: WorkoutRoute): Element {
    Element(WorkoutRouteTag, map[
      SourceNameAttr := ro.sourceName, SourceVersionAttr := ro.sourceVersion, DeviceAttr := ro.device,
      CreationDateAttr := ro.creationDate, StartDateAttr := ro.startDate, EndDateAttr := ro.endDate], [])
  }

  /** Reading back the element written for a route gives the route. */
  lemma RouteRoundTrip(ro: WorkoutRoute)
    ensures RouteOf(RouteElement(ro)) == ro
  {
  }

  /**
   * A workout, its events and its routes, each in document order. The workout's
   * own metadata is gathered from every `MetadataEntry` below it, its events'
   * entries included.
   */
  function WorkoutOf(e: Element): (w: Workout)
    ensures |w.events| == |FindAll(e, WorkoutEventTag)| && |w.routes| == |FindAll(e, WorkoutRouteTag)|
    ensures forall i :: 0 <= i < |w.events| ==> w.events[i] == EventOf(FindAll(e, WorkoutEventTag)[i])
    ensures forall i :: 0 <= i < |w.routes| ==> w.routes[i] == RouteOf(FindAll(e, WorkoutRouteTag)[i])
  {
    var events := FindAll(e, WorkoutEventTag);
    var routes := FindAll(e, WorkoutRouteTag);
    Workout(
      Attr(e, ActivityTypeAttr), Attr(e, DurationAttr), Attr(e, DurationUnitAttr), Attr(e, TotalDistanceAttr),
      Attr(e, TotalDistanceUnitAttr), Attr(e, TotalEnergyAttr), Attr(e, TotalEnergyUnitAttr),
      Attr(e, SourceNameAttr), Attr(e, SourceVersionAttr), Attr(e, DeviceAttr), Attr(e, CreationDateAttr),
      Attr(e, StartDateAttr), Attr(e, EndDateAttr), FoldMetadata(FindAll(e, MetadataEntryTag)),
      seq(|events|, i requires 0 <= i < |events| => EventOf(events[i])),
      seq(|routes|, i requires 0 <= i < |routes| => RouteOf(routes[i])))
  }

  /** An event's metadata entries lie below its workout too, so the workout's metadata has every key the event's has. */
  lemma WorkoutMetadataCoversEvents(workout: Element, event: Element)
    requires event in FindAll(workout, WorkoutEventTag)
    ensures EventOf(event).metadata.Keys <= WorkoutOf(workout).metadata.Keys
  {
    EventEntriesBelowWorkout(workout, event);
  }

  lemma EventEntriesBelowWorkout(workout: Element, event: Element)
    requires event in FindAll(workout, WorkoutEventTag)
    ensures forall k :: k in FoldMetadata(FindAll(event, MetadataEntryTag)) ==>
      k in FoldMetadata(FindAll(workout, MetadataEntryTag))
  {
    var mine, theirs := FindAll(workout, MetadataEntryTag), FindAll(event, MetadataEntryTag);
    MetadataKeys(mine);
    MetadataKeys(theirs);
    forall k | k in FoldMetadata(theirs)
      ensures k in FoldMetadata(mine)
    {
      var i :| 0 <= i < |theirs| && EntryKey(theirs[i]) == k;
      DescendantsNest(workout, event, theirs[i]);
      var j :| 0 <= j < |mine| && mine[j] == theirs[i];
    }
  }

  /** A descendant of a descendant is a descendant. */
  lemma {:induction false} DescendantsNest(a: Element, b: Element, c: Element)
    requires b in Descendants(a) && c in Descendants(b)
    ensures c in Descendants(a)
    decreases a, |a.children| + 1
  {
    DescendantsFromNest(a, 0, b, c);
  }

  lemma {:induction false} DescendantsFromNest(a: Element, i: nat, b: Element, c: Element)
    requires b in DescendantsFrom(a, i) && c in Descendants(b)
    ensures c in DescendantsFrom(a, i)
    decreases a, |a.children| - i
  {
    if i < |a.children| {
      var child := a.children[i];
      if b == child {
      } else if b in Descendants(child) {
        DescendantsNest(child, b, c);
      } else {
        DescendantsFromNest(a, i + 1, b, c);
      }
    }
  }

  /** One entry of `clinical_records`. */
  datatype ClinicalRecord = ClinicalRecord(
    kind: string, identifier: string, sourceName: string, sourceUrl: string, fhirVersion: string,
    receivedDate: string, resourceFilePath: string)

  /** A clinical record read from its attributes; an element without any reads as empty fields. */
  function ClinicalRecordOf(e: Element): (c: ClinicalRecord)
    ensures e.attrs == map[] ==> c == ClinicalRecord("", "", "", "", "", "", "")
  {
    ClinicalRecord(Attr(e, TypeAttr), Attr(e, IdentifierAttr), Attr(e, SourceNameAttr), Attr(e, SourceUrlAttr),
                   Attr(e, FhirVersionAttr), Attr(e, ReceivedDateAttr), Attr(e, ResourcePathAttr))
  }

  /** The `ClinicalRecord` element an export holds for a record. */
  function ClinicalRecordElement(c: ClinicalRecord): Element {
    Element(ClinicalRecordTag, map[
      TypeAttr := c.kind, IdentifierAttr := c.identifier, SourceNameAttr := c.sourceName,
      SourceUrlAttr := c.sourceUrl, FhirVersionAttr := c.fhirVersion, ReceivedDateAttr := c.receivedDate,
      ResourcePathAttr := c.resourceFilePath], [])
  }

  /** Reading back the element written for a clinical record gives the record. */
  lemma ClinicalRecordRoundTrip(c: ClinicalRecord)
    ensures ClinicalRecordOf(ClinicalRecordElement(c)) == c
  {
  }

  /** One entry of `activity_summaries`. */
  datatype ActivitySummary = ActivitySummary(
    dateComponents: string, activeEnergyBurned: string, activeEnergyBurnedGoal: string,
    activeEnergyBurnedUnit: string, appleExerciseTime: string, appleExerciseTimeGoal: string,
    appleStandHours: string, appleStandHoursGoal: string)

  /** A daily summary read from its attributes; an element without any reads as empty fields. */
  function ActivitySummaryOf(e: Element): (a: ActivitySummary)
    ensures e.attrs == map[] ==> a == ActivitySummary("", "", "", "", "", "", "", "")
  {
    ActivitySummary(Attr(e, DateComponentsAttr), Attr(e, ActiveEnergyAttr), Attr(e, ActiveEnergyGoalAttr),
                    Attr(e, ActiveEnergyUnitAttr), Attr(e, ExerciseTimeAttr), Attr(e, ExerciseTimeGoalAttr),
                    Attr(e, StandHoursAttr), Attr(e, StandHoursGoalAttr))
  }

  /** The `ActivitySummary` element an export holds for a day. */
  function ActivitySummaryElement(a: ActivitySummary): Element {
    Element(ActivitySummaryTag, map[
      DateComponentsAttr := a.dateComponents, ActiveEnergyAttr := a.activeEnergyBurned,
      ActiveEnergyGoalAttr := a.activeEnergyBurnedGoal, ActiveEnergyUnitAttr := a.activeEnergyBurnedUnit,
      ExerciseTimeAttr := a.appleExerciseTime, ExerciseTimeGoalAttr := a.appleExerciseTimeGoal,
      StandHoursAttr := a.appleStandHours, StandHoursGoalAttr := a.appleStandHoursGoal], [])
  }

  /** Reading back the element written for a daily summary gives the summary. */
  lemma ActivitySummaryRoundTrip(a: ActivitySummary)
    ensures ActivitySummaryOf(ActivitySummaryElement(a)) == a
  {
  }

  /** The processor's `health_data`. */
  datatype HealthData = HealthData(
    metadata: Option<Profile>, records: seq<HealthRecord>, workouts: seq<Workout>,
    clinicalRecords: seq<ClinicalRecord>, activitySummaries: seq<ActivitySummary>)

  /** A fresh processor's data: no metadata and four empty lists. */
  const EmptyHealthData: HealthData := HealthData(None, [], [], [], [])

  /**
   * `parse_xml_file` after the tree is read: the metadata step, then one entry
   * appended per `Record`, `Workout`, `ClinicalRecord` and `ActivitySummary`
   * element, in document order.
   */
  function ParseTree(data: HealthData, root: Element): (r: HealthData)
    ensures |r.records| == |data.records| + |FindAll(root, RecordTag)|
    ensures |r.workouts| == |data.workouts| + |FindAll(root, WorkoutTag)|
    ensures |r.clinicalRecords| == |data.clinicalRecords| + |FindAll(root, ClinicalRecordTag)|
    ensures |r.activitySummaries| == |data.activitySummaries| + |FindAll(root, ActivitySummaryTag)|
    ensures r.records[..|data.records|] == data.records && r.workouts[..|data.workouts|] == data.workouts
    ensures r.clinicalRecords[..|data.clinicalRecords|] == data.clinicalRecords
    ensures r.activitySummaries[..|data.activitySummaries|] == data.activitySummaries
    ensures forall i :: 0 <= i < |FindAll(root, RecordTag)| ==>
      r.records[|data.records| + i] == RecordOf(FindAll(root, RecordTag)[i])
    ensures forall i :: 0 <= i < |FindAll(root, WorkoutTag)| ==>
      r.workouts[|data.workouts| + i] == WorkoutOf(FindAll(root, WorkoutTag)[i])
    ensures forall i :: 0 <= i < |FindAll(root, ClinicalRecordTag)| ==>
      r.clinicalRecords[|data.clinicalRecords| + i] == ClinicalRecordOf(FindAll(root, ClinicalRecordTag)[i])
    ensures forall i :: 0 <= i < |FindAll(root, ActivitySummaryTag)| ==>
      r.activitySummaries[|data.activitySummaries| + i] == ActivitySummaryOf(FindAll(root, ActivitySummaryTag)[i])
    ensures Find(root, MeTag).None? ==> r.metadata == data.metadata
  {
    var records := FindAll(root, RecordTag);
    var workouts := FindAll(root, WorkoutTag);
    var clinical := FindAll(root, ClinicalRecordTag);
    var summaries := FindAll(root, ActivitySummaryTag);
    HealthData(
      ExtractMetadata(root, data.metadata),
      data.records + seq(|records|, i requires 0 <= i < |records| => RecordOf(records[i])),
      data.workouts + seq(|workouts|, i requires 0 <= i < |workouts| => WorkoutOf(workouts[i])),
      data.clinicalRecords + seq(|clinical|, i requires 0 <= i < |clinical| => ClinicalRecordOf(clinical[i])),
      data.activitySummaries + seq(|summaries|, i requires 0 <= i < |summaries| => ActivitySummaryOf(summaries[i])))
  }

  /** A dictionary of counts in insertion order, as Python keeps it. */
  type Tally = seq<(string, nat)>

  function KeySet(t: Tally): set<string> {
    if t == [] then {} else {t[0].0} + KeySet(t[1..])
  }

  predicate DistinctKeys(t: Tally) {
    t == [] || (t[0].0 !in KeySet(t[1..]) && DistinctKeys(t[1..]))
  }

  predicate AllPositive(t: Tally) {
    t == [] || (t[0].1 >= 1 && AllPositive(t[1..]))
  }

  /** `counts.get(key, 0)`. */
  function CountOf(t: Tally, key: string): nat {
    if t == [] then 0 else if t[0].0 == key then t[0].1 else CountOf(t[1..], key)
  }

  function Total(t: Tally): nat {
    if t == [] then 0 else t[0].1 + Total(t[1..])
  }

  /** `counts[key] = counts.get(key, 0) + 1`: bump an existing key in place, or append it. */
  function Bump(t: Tally, key: string): (r: Tally)
    ensures KeySet(r) == KeySet(t) + {key}
  {
    if t == [] then [(key, 1)]
    else if t[0].0 == key then [(key, t[0].1 + 1)] + t[1..]
    else [t[0]] + Bump(t[1..], key)
  }

  /**
   * Bumping keeps the keys distinct and the counts positive, adds one to the key's
   * count and to the total, and leaves every other count alone.
   */
  lemma {:induction false} BumpCounts(t: Tally, key: string)
    requires DistinctKeys(t)
    ensures DistinctKeys(Bump(t, key))
    ensures AllPositive(t) ==> AllPositive(Bump(t, key))
    ensures CountOf(Bump(t, key), key) == CountOf(t, key) + 1
    ensures forall k :: k != key ==> CountOf(Bump(t, key), k) == CountOf(t, k)
    ensures Total(Bump(t, key)) == Total(t) + 1
  {
    if t != [] {
      if t[0].0 == key {
        AbsentCountsZero(t[1..], key);
      } else {
        BumpCounts(t[1..], key);
      }
    }
  }

  /** A key that is absent counts zero. */
  lemma {:induction false} AbsentCountsZero(t: Tally, key: string)
    requires key !in KeySet(t)
    ensures CountOf(t, key) == 0
  {
    if t != [] {
      AbsentCountsZero(t[1..], key);
    }
  }

  /** The count loop of `get_data_summary` over a list of type names. */
  function TallyOf(kinds: seq<string>): (t: Tally)
    ensures KeySet(t) == set k | k in kinds
  {
    if kinds == [] then []
    else
      var prefix := kinds[..|kinds| - 1];
      assert kinds == prefix + [kinds[|kinds| - 1]];
      Bump(TallyOf(prefix), kinds[|kinds| - 1])
  }

  /**
   * The tally has one entry per distinct type, each type counted as often as it
   * occurs, every count at least one, and the counts add up to the number of items.
   */
  lemma {:induction false} TallyCounts(kinds: seq<string>)
    ensures DistinctKeys(TallyOf(kinds)) && AllPositive(TallyOf(kinds))
    ensures forall k :: CountOf(TallyOf(kinds), k) == multiset(kinds)[k]
    ensures Total(TallyOf(kinds)) == |kinds|
  {
    if kinds != [] {
      var prefix, last := kinds[..|kinds| - 1], kinds[|kinds| - 1];
      TallyCounts(prefix);
      BumpCounts(TallyOf(prefix), last);
      assert kinds == prefix + [last];
      assert multiset(kinds) == multiset(prefix) + multiset{last};
    }
  }

  /** The `date_range` block. */
  datatype DateRange = DateRange(earliest: string, latest: string)

  /** Python's `a <= b` on strings: lexicographic by code point. */
  predicate LexLe(a: string, b: string) {
    a == [] || (b != [] && (a[0] < b[0] || (a[0] == b[0] && LexLe(a[1..], b[1..]))))
  }

  lemma LexLeReflexive(a: string)
    ensures LexLe(a, a)
  {
  }

  lemma LexLeTotal(a: string, b: string)
    ensures LexLe(a, b) || LexLe(b, a)
  {
  }

  lemma LexLeTransitive(a: string, b: string, c: string)
    requires LexLe(a, b) && LexLe(b, c)
    ensures LexLe(a, c)
  {
  }

  lemma {:induction false} LexLeAntisymmetric(a: string, b: string)
    requires LexLe(a, b) && LexLe(b, a)
    ensures a == b
  {
    if a != [] && b != [] {
      LexLeAntisymmetric(a[1..], b[1..]);
      assert a == [a[0]] + a[1..] && b == [b[0]] + b[1..];
    }
  }

  /** The first date once the list is sorted: the least one. */
  function Earliest(dates: seq<string>): (d: string)
    requires dates != []
    ensures d in dates
    ensures forall i :: 0 <= i < |dates| ==> LexLe(d, dates[i])
  {
    if |dates| == 1 then LexLeReflexive(dates[0]); dates[0]
    else
      var rest := Earliest(dates[1..]);
      LexLeTotal(dates[0], rest);
      EarliestBound(dates, rest);
      if LexLe(dates[0], rest) then dates[0] else rest
  }

  lemma EarliestBound(dates: seq<string>, rest: string)
    requires |dates| > 1
    requires forall i :: 0 <= i < |dates| - 1 ==> LexLe(rest, dates[1..][i])
    ensures forall i :: 0 <= i < |dates| ==> LexLe(dates[0], rest) ==> LexLe(dates[0], dates[i])
    ensures forall i :: 1 <= i < |dates| ==> LexLe(rest, dates[i])
  {
    forall i | 1 <= i < |dates|
      ensures LexLe(rest, dates[i])
      ensures LexLe(dates[0], rest) ==> LexLe(dates[0], dates[i])
    {
      assert dates[1..][i - 1] == dates[i];
      if LexLe(dates[0], rest) {
        LexLeTransitive(dates[0], rest, dates[i]);
      }
    }
    LexLeReflexive(dates[0]);
  }

  /** The last date once the list is sorted: the greatest one. */
  function Latest(dates: seq<string>): (d: string)
    requires dates != []
    ensures d in dates
    ensures forall i :: 0 <= i < |dates| ==> LexLe(dates[i], d)
  {
    if |dates| == 1 then LexLeReflexive(dates[0]); dates[0]
    else
      var rest := Latest(dates[1..]);
      LexLeTotal(dates[0], rest);
      LatestBound(dates, rest);
      if LexLe(rest, dates[0]) then dates[0] else rest
  }

  lemma LatestBound(dates: seq<string>, rest: string)
    requires |dates| > 1
    requires forall i :: 0 <= i < |dates| - 1 ==> LexLe(dates[1..][i], rest)
    ensures forall i :: 0 <= i < |dates| ==> LexLe(rest, dates[0]) ==> LexLe(dates[i], dates[0])
    ensures forall i :: 1 <= i < |dates| ==> LexLe(dates[i], rest)
  {
    forall i | 1 <= i < |dates|
      ensures LexLe(dates[i], rest)
      ensures LexLe(rest, dates[0]) ==> LexLe(dates[i], dates[0])
    {
      assert dates[1..][i - 1] == dates[i];
      if LexLe(rest, dates[0]) {
        LexLeTransitive(dates[i], rest, dates[0]);
      }
    }
    LexLeReflexive(dates[0]);
  }

  /** The non-empty strings of `ds`, in order. */
  function NonEmpty(ds: seq<string>): (r: seq<string>)
    ensures |r| <= |ds|
    ensures forall d :: d in r <==> d in ds && d != ""
  {
    if ds == [] then []
    else if ds[0] != "" then [ds[0]] + NonEmpty(ds[1..])
    else NonEmpty(ds[1..])
  }

  /** The start dates `_get_date_range` collects: those of the records, then those of the workouts, empty ones skipped. */
  function CollectDates(data: HealthData): (dates: seq<string>)
    ensures |dates| <= |data.records| + |data.workouts|
    ensures forall d :: d in dates ==> d != ""
  {
    NonEmpty(seq(|data.records|, i requires 0 <= i < |data.records| => data.records[i].startDate))
    + NonEmpty(seq(|data.workouts|, i requires 0 <= i < |data.workouts| => data.workouts[i].startDate))
  }

  /** A date is collected exactly when some record or workout starts then, and it is not empty. */
  lemma CollectDatesMembers(data: HealthData, d: string)
    ensures d in CollectDates(data) <==>
      d != "" && ((exists i :: 0 <= i < |data.records| && data.records[i].startDate == d)
               || (exists i :: 0 <= i < |data.workouts| && data.workouts[i].startDate == d))
  {
    var rs := seq(|data.records|, i requires 0 <= i < |data.records| => data.records[i].startDate);
    var ws := seq(|data.workouts|, i requires 0 <= i < |data.workouts| => data.workouts[i].startDate);
    if i :| 0 <= i < |data.records| && data.records[i].startDate == d {
      assert rs[i] == d;
    }
    if i :| 0 <= i < |data.workouts| && data.workouts[i].startDate == d {
      assert ws[i] == d;
    }
    assert d in CollectDates(data) <==> d in NonEmpty(rs) || d in NonEmpty(ws);
  }

  /**
   * `_get_date_range`: the least and greatest collected start date, or two empty
   * strings when there is none.
   */
  function GetDateRange(data: HealthData): (r: DateRange)
    ensures CollectDates(data) == [] <==> r == DateRange("", "")
    ensures CollectDates(data) != [] ==>
      && r.earliest in CollectDates(data) && r.latest in CollectDates(data)
      && forall d :: d in CollectDates(data) ==> LexLe(r.earliest, d) && LexLe(d, r.latest)
  {
    var dates := CollectDates(data);
    if dates == [] then DateRange("", "")
    else
      CollectedDatesNonEmpty(data, dates[0]);
      DateRange(Earliest(dates), Latest(dates))
  }

  lemma CollectedDatesNonEmpty(data: HealthData, d: string)
    requires d in CollectDates(data)
    ensures d != ""
  {
    CollectDatesMembers(data, d);
  }

  /** No other collected date could stand first or last: the range is that of the sorted list. */
  lemma DateRangeUnique(data: HealthData, first: string, last: string)
    requires first in CollectDates(data) && last in CollectDates(data)
    requires forall d :: d in CollectDates(data) ==> LexLe(first, d) && LexLe(d, last)
    ensures GetDateRange(data) == DateRange(first, last)
  {
    var r := GetDateRange(data);
    LexLeAntisymmetric(first, r.earliest);
    LexLeAntisymmetric(last, r.latest);
  }

  /** `get_data_summary`. */
  datatype Summary = Summary(
    totalRecords: nat, totalWorkouts: nat, totalClinicalRecords: nat, totalActivitySummaries: nat,
    recordTypes: Tally, workoutTypes: Tally, dateRange: DateRange)

  function RecordKinds(data: HealthData): seq<string> {
    seq(|data.records|, i requires 0 <= i < |data.records| => data.records[i].kind)
  }

  function WorkoutKinds(data: HealthData): seq<string> {
    seq(|data.workouts|, i requires 0 <= i < |data.workouts| => data.workouts[i].activityType)
  }

  function GetSummary(data: HealthData): (s: Summary)
    ensures s.totalRecords == |data.records| && s.totalWorkouts == |data.workouts|
    ensures s.totalClinicalRecords == |data.clinicalRecords| && s.totalActivitySummaries == |data.activitySummaries|
    ensures KeySet(s.recordTypes) == set k | k in RecordKinds(data)
    ensures KeySet(s.workoutTypes) == set k | k in WorkoutKinds(data)
  {
    var r, w := RecordKinds(data), WorkoutKinds(data);
    Summary(|data.records|, |data.workouts|, |data.clinicalRecords|, |data.activitySummaries|,
            TallyOf(r), TallyOf(w), GetDateRange(data))
  }

  /**
   * In the summary the counts of `record_types` add up to `total_records`, every
   * count is at least one, and each type is counted once per record of that type;
   * the same holds for `workout_types` and `total_workouts`.
   */
  lemma SummaryCountsAddUp(data: HealthData)
    ensures var s := GetSummary(data);
      && Total(s.recordTypes) == s.totalRecords && AllPositive(s.recordTypes) && DistinctKeys(s.recordTypes)
      && Total(s.workoutTypes) == s.totalWorkouts && AllPositive(s.workoutTypes) && DistinctKeys(s.workoutTypes)
      && (forall k :: CountOf(s.recordTypes, k) == multiset(RecordKinds(data))[k])
      && (forall k :: CountOf(s.workoutTypes, k) == multiset(WorkoutKinds(data))[k])
  {
    TallyCounts(RecordKinds(data));
    TallyCounts(WorkoutKinds(data));
  }
}
