/**
 * Temperature sensing: the result of `psutil.sensors_temperatures()` as the
 * component sees it, the flattening of its groups into one ordered entry list
 * (`_temperature_entries`), capability detection (`_detect_temperature_available`)
 * and the first-match read (`_read_temperature`).
 */
module Sensors {

  /** What `getattr(entry, "current", None)` followed by `float(current)` gives. */
  datatype Current =
    | Missing                     // the entry has no `current` attribute
    | NoneCurrent                 // `current` is None
    | Convertible(celsius: real)  // float(current) returns this value
    | Unconvertible               // float(current) raises TypeError or ValueError
    | ConversionRaises            // float(current) raises any other exception, e.g. OverflowError

  datatype SensorEntry = SensorEntry(current: Current)

  /** The value stored under one sensor-group name: a list of entries, or anything else. */
  datatype GroupValue = Readings(entries: seq<SensorEntry>) | NotAList

  /** What asking psutil for its temperature groups produces. */
  datatype SensorQuery =
    | NoFunction                                 // `sensors_temperatures` is missing or not callable
    | QueryRaised                                // calling it raised
    | NotADict                                   // it returned something other than a dict
    | Groups(groups: seq<(string, GroupValue)>)  // a dict, in its iteration order

  /** The entries a group contributes: its list, or nothing when the value is not a list. */
  function ListPart(g: GroupValue): seq<SensorEntry> {
    if g.Readings? then g.entries else []
  }

  /** The list-valued groups concatenated in order. */
  function Flatten(groups: seq<(string, GroupValue)>): seq<SensorEntry> {
    if groups == [] then []
    else Flatten(groups[..|groups| - 1]) + ListPart(groups[|groups| - 1].1)
  }

  /** Flattening distributes over concatenation of group lists ... */
  lemma {:induction false} FlattenAppend(gs1: seq<(string, GroupValue)>, gs2: seq<(string, GroupValue)>)
    ensures Flatten(gs1 + gs2) == Flatten(gs1) + Flatten(gs2)
    decreases |gs2|
  {
    if gs2 != [] {
      var last := gs2[|gs2| - 1];
      assert (gs1 + gs2)[..|gs1 + gs2| - 1] == gs1 + gs2[..|gs2| - 1];
      FlattenAppend(gs1, gs2[..|gs2| - 1]);
    } else {
      assert gs1 + gs2 == gs1;
    }
  }

  /** ... and a single group flattens to its list part, so together they define Flatten. */
  lemma FlattenSingle(g: (string, GroupValue))
    ensures Flatten([g]) == ListPart(g.1)
  {
    assert [g][..0] == [];
  }

  /** The flattened list is empty exactly when no group holds a non-empty list. */
  lemma {:induction false} FlattenEmpty(groups: seq<(string, GroupValue)>)
    ensures Flatten(groups) == [] <==> forall i :: 0 <= i < |groups| ==> ListPart(groups[i].1) == []
  {
    if groups != [] {
      var init := groups[..|groups| - 1];
      FlattenEmpty(init);
      assert forall i :: 0 <= i < |init| ==> init[i] == groups[i];
    }
  }

  /** Every entry of the flattened list comes from a list-valued group, and every such entry is in it. */
  lemma {:induction false} FlattenMember(groups: seq<(string, GroupValue)>, e: SensorEntry)
    ensures e in Flatten(groups) <==> exists i :: 0 <= i < |groups| && e in ListPart(groups[i].1)
  {
    if groups != [] {
      var init := groups[..|groups| - 1];
      FlattenMember(init, e);
      assert forall i :: 0 <= i < |init| ==> init[i] == groups[i];
      if e in ListPart(groups[|groups| - 1].1) {
        assert e in Flatten(groups);
      }
    }
  }

  /** The entries `_temperature_entries` returns: none unless the query produced a dict. */
  function Entries(q: SensorQuery): (r: seq<SensorEntry>)
    ensures !q.Groups? ==> r == []
  {
    if q.Groups? then Flatten(q.groups) else []
  }

  /** `_temperature_entries`: a loop extending the result by each list-valued group. */
  method TemperatureEntries(q: SensorQuery) returns (entries: seq<SensorEntry>)
    ensures entries == Entries(q)
  {
    if !q.Groups? {
      return [];
    }
    entries := [];
    var groups := q.groups;
    for i := 0 to |groups|
      invariant entries == Flatten(groups[..i])
    {
      var values := groups[i].1;
      if values.Readings? {
        entries := entries + values.entries;
      }
      assert groups[..i + 1][..i] == groups[..i];
    }
    assert groups[..|groups|] == groups;
  }

  /** Some group of a dict result holds a non-empty list of entries. */
  predicate HasReadings(q: SensorQuery) {
    q.Groups? && exists i :: 0 <= i < |q.groups| && q.groups[i].1.Readings? && q.groups[i].1.entries != []
  }

  /** `_detect_temperature_available`: the flattened entry list is non-empty. */
  method DetectTemperatureAvailable(q: SensorQuery) returns (available: bool)
    ensures available <==> HasReadings(q)
  {
    var entries := TemperatureEntries(q);
    available := entries != [];
    if q.Groups? {
      FlattenEmpty(q.groups);
    }
  }

  /** The outcome of one temperature read. */
  datatype TemperatureRead =
    | Celsius(value: real)  // the first usable reading
    | NoReading             // None: unavailable, or no entry had a usable `current`
    | ReadRaised            // a conversion raised an exception the read does not catch

  /** Entries the scan steps over: `current` missing or None, or float() raised TypeError/ValueError. */
  predicate Skipped(c: Current) {
    c.Missing? || c.NoneCurrent? || c.Unconvertible?
  }

  /** The first-match policy, entry by entry in list order. */
  function FirstUsable(entries: seq<SensorEntry>): TemperatureRead {
    if entries == [] then NoReading
    else match entries[0].current
      case Convertible(v) => Celsius(v)
      case ConversionRaises => ReadRaised
      case _ => FirstUsable(entries[1..])
  }

  /** What the entry that stops the scan decides. */
  function Decide(c: Current): TemperatureRead
    requires !Skipped(c)
  {
    if c.Convertible? then Celsius(c.celsius) else ReadRaised
  }

  /** The read is decided by the first entry that is not skipped. */
  lemma {:induction false} FirstUsableAt(entries: seq<SensorEntry>, k: nat)
    requires k < |entries| && !Skipped(entries[k].current)
    requires forall j :: 0 <= j < k ==> Skipped(entries[j].current)
    ensures FirstUsable(entries) == Decide(entries[k].current)
  {
    if k > 0 {
      FirstUsableAt(entries[1..], k - 1);
    }
  }

  /** When every entry is skipped there is no reading. */
  lemma {:induction false} FirstUsableNone(entries: seq<SensorEntry>)
    requires forall j :: 0 <= j < |entries| ==> Skipped(entries[j].current)
    ensures FirstUsable(entries) == NoReading
  {
    if entries != [] {
      FirstUsableNone(entries[1..]);
    }
  }

  /** A reading of v means some entry converts to v and every entry before it was skipped. */
  lemma {:induction false} FirstUsableCelsius(entries: seq<SensorEntry>, v: real)
    ensures FirstUsable(entries) == Celsius(v) <==>
      exists k :: 0 <= k < |entries| && entries[k].current == Convertible(v) &&
        forall j :: 0 <= j < k ==> Skipped(entries[j].current)
  {
    if entries != [] {
      FirstUsableCelsius(entries[1..], v);
      if FirstUsable(entries) == Celsius(v) && !entries[0].current.Convertible? {
        var k :| 0 < k + 1 <= |entries[1..]| && entries[1..][k].current == Convertible(v) &&
          forall j :: 0 <= j < k ==> Skipped(entries[1..][j].current);
        assert entries[k + 1].current == Convertible(v);
      }
      if exists k :: 0 <= k < |entries| && entries[k].current == Convertible(v) &&
          forall j :: 0 <= j < k ==> Skipped(entries[j].current) {
        var k :| 0 <= k < |entries| && entries[k].current == Convertible(v) &&
          forall j :: 0 <= j < k ==> Skipped(entries[j].current);
        FirstUsableAt(entries, k);
      }
    }
  }

  /** `_read_temperature`: None when unavailable, else a scan that returns at the first usable entry. */
  method ReadTemperature(available: bool, q: SensorQuery) returns (r: TemperatureRead)
    ensures !available ==> r == NoReading
    ensures available ==> r == FirstUsable(Entries(q))
  {
    if !available {
      return NoReading;
    }
    var entries := TemperatureEntries(q);
    for i := 0 to |entries|
      invariant FirstUsable(entries[i..]) == FirstUsable(entries)
    {
      assert entries[i..][1..] == entries[i + 1..];
      var current := entries[i].current;
      if current.Missing? || current.NoneCurrent? {
        continue;
      }
      if current.Convertible? {
        return Celsius(current.celsius);
      }
      if current.ConversionRaises? {
        return ReadRaised;
      }
    }
    return NoReading;
  }
}
