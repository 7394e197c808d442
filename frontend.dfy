/** Helpers of the Flask frontend (python/saliweb/frontend/__init__.py):
    the "time left" text, the job objects built from database rows, and the
    naming rule that turns a configuration file into Flask config keys.

    `_format_timediff` receives the number of seconds between the given
    time and now (the clock is not modelled), as an exact real rather than
    a float; `None` stands for a missing time. */
module Frontend {
  import opened Base
  import opened Text

  // ---------------------------------------------------------------------
  // _format_timediff
  // ---------------------------------------------------------------------

  /** `'%d %s%s' % (df, unit, ...)`: `%d` truncates the non-negative count,
      and the unit always takes an `s`, since the source compares the unit
      name with the number 1, which never holds. */
  function FormatUnit(df: real, unit: string): string
    requires df >= 0.0
  {
    Show(df.Floor as nat) + " " + unit + "s"
  }

  /** `_format_timediff(t)` on the seconds remaining: nothing for a missing
      or past time, otherwise the count in the first unit that keeps it
      below its threshold (120 seconds, 120 minutes, 48 hours, 48 days),
      and nothing beyond 48 days. */
  function FormatTimediff(t: Option<real>): Option<string> {
    if t.None? then None
    else
      var secs := t.value;
      if secs < 0.0 then None
      else if secs < 120.0 then Some(FormatUnit(secs, "second"))
      else
        var mins := secs / 60.0;
        if mins < 120.0 then Some(FormatUnit(mins, "minute"))
        else
          var hours := mins / 60.0;
          if hours < 48.0 then Some(FormatUnit(hours, "hour"))
          else
            var days := hours / 24.0;
            if days < 48.0 then Some(FormatUnit(days, "day"))
            else None
  }

  /** A display unit: its name and its length in seconds. */
  datatype Unit = Unit(name: string, seconds: real)

  /** The unit chosen for a non-negative number of seconds, by thresholds
      stated in seconds. */
  function UnitFor(secs: real): Option<Unit>
    requires secs >= 0.0
  {
    if secs < 120.0 then Some(Unit("second", 1.0))
    else if secs < 7200.0 then Some(Unit("minute", 60.0))
    else if secs < 172800.0 then Some(Unit("hour", 3600.0))
    else if secs < 4147200.0 then Some(Unit("day", 86400.0))
    else None
  }

  /** A reference statement of the format: the whole number of units that
      fit in the time left. */
  function ReferenceFormat(t: Option<real>): Option<string> {
    if t.None? || t.value < 0.0 then None
    else
      match UnitFor(t.value)
      case None => None
      case Some(u) => Some(Show((t.value / u.seconds).Floor as nat) + " " + u.name + "s")
  }

  /** The successive divisions of the source give the reference format. */
  lemma FormatMatchesReference(t: Option<real>)
    ensures FormatTimediff(t) == ReferenceFormat(t)
  {
    if t.Some? && t.value >= 0.0 {
      var s := t.value;
      assert s / 60.0 / 60.0 == s / 3600.0;
      assert s / 60.0 / 60.0 / 24.0 == s / 86400.0;
    }
  }

  /** A missing time, a time in the past and a time 48 days or more ahead
      all give nothing; every other time gives a text. */
  lemma FormatNoneCases(t: Option<real>)
    ensures FormatTimediff(t).None? <==> t.None? || t.value < 0.0 || t.value >= 4147200.0
  {
    FormatMatchesReference(t);
  }

  /** The count shown is the number of whole units in the time left, and
      it stays below the unit's threshold; every unit but seconds shows at
      least 2, as the previous threshold is two of that unit. */
  lemma FormatCountBounds(secs: real)
    requires 0.0 <= secs < 4147200.0
    ensures var u := UnitFor(secs).value;
            var n := (secs / u.seconds).Floor;
            n as real * u.seconds <= secs < (n + 1) as real * u.seconds &&
            (u.name == "second" ==> n < 120) &&
            (u.name == "minute" ==> 2 <= n < 120) &&
            (u.name == "hour" ==> 2 <= n < 48) &&
            (u.name == "day" ==> 2 <= n < 48)
  {
    var u := UnitFor(secs).value;
    var q := secs / u.seconds;
    assert q * u.seconds == secs;
  }

  /** The source's examples: 100 seconds, 10 minutes and 3 hours ahead (each
      with 300 microseconds of slack), no time, a time in the past, and
      100 days ahead, which is beyond the last threshold. */
  lemma FormatExamples()
    ensures FormatTimediff(Some(100.0003)) == Some("100 seconds")
    ensures FormatTimediff(Some(600.0003)) == Some("10 minutes")
    ensures FormatTimediff(Some(10800.0003)) == Some("3 hours")
    ensures FormatTimediff(None) == None
    ensures FormatTimediff(Some(-99.9997)) == None
    ensures FormatTimediff(Some(8640000.0003)) == None
  {
    assert (100.0003).Floor == 100;
    assert (600.0003 / 60.0).Floor == 10;
    assert (10800.0003 / 60.0 / 60.0).Floor == 3;
    assert Show(10) == "10";
    assert Show(100) == "100";
    assert FormatUnit(100.0003, "second") == "100 seconds";
    assert FormatUnit(600.0003 / 60.0, "minute") == "10 minutes";
    assert FormatUnit(10800.0003 / 60.0 / 60.0, "hour") == "3 hours";
  }

  // ---------------------------------------------------------------------
  // QueuedJob and CompletedJob
  // ---------------------------------------------------------------------

  /** The columns a `QueuedJob` takes from its row. */
  const QueuedJobKeys: seq<string> := ["name", "submit_time", "state"]

  /** The columns a `CompletedJob` takes from its row. */
  const CompletedJobKeys: seq<string> := ["name", "passwd", "archive_time", "directory"]

  /** The attribute loop of the job constructors: copies each listed column
      of the row, in order, and raises `KeyError` (carrying the key) at the
      first one the row lacks. */
  method CopyAttributes<V>(keys: seq<string>, row: map<string, V>) returns (r: Result<map<string, V>, string>)
    ensures r.Ok? <==> forall i :: 0 <= i < |keys| ==> keys[i] in row
    ensures r.Ok? ==> r.value.Keys == set i | 0 <= i < |keys| :: keys[i]
    ensures r.Ok? ==> forall k :: k in r.value ==> k in row && r.value[k] == row[k]
    ensures r.Err? ==> exists i :: 0 <= i < |keys| && keys[i] == r.error && keys[i] !in row &&
                                   forall j :: 0 <= j < i ==> keys[j] in row
  {
    var attrs: map<string, V> := map[];
    var i := 0;
    while i < |keys|
      invariant 0 <= i <= |keys|
      invariant forall j :: 0 <= j < i ==> keys[j] in row
      invariant attrs.Keys == set j | 0 <= j < i :: keys[j]
      invariant forall k :: k in attrs ==> k in row && attrs[k] == row[k]
    {
      if keys[i] !in row {
        return Err(keys[i]);
      }
      attrs := attrs[keys[i] := row[keys[i]]];
      i := i + 1;
    }
    r := Ok(attrs);
  }

  /** A job still in the queue, with the attributes its row gave. */
  class QueuedJob<V> {
    var attrs: map<string, V>

    constructor (attrs: map<string, V>)
      ensures this.attrs == attrs
    {
      this.attrs := attrs;
    }

    /** `QueuedJob(sql_dict)`: takes exactly `name`, `submit_time` and
        `state` from the row and no other column. */
    static method Create(row: map<string, V>) returns (r: Result<QueuedJob<V>, string>)
      ensures r.Ok? <==> "name" in row && "submit_time" in row && "state" in row
      ensures r.Ok? ==> fresh(r.value) && r.value.attrs.Keys == {"name", "submit_time", "state"}
      ensures r.Ok? ==> forall k :: k in r.value.attrs ==> r.value.attrs[k] == row[k]
    {
      var a := CopyAttributes(QueuedJobKeys, row);
      if a.Err? {
        return Err(a.error);
      }
      assert a.value.Keys == {"name", "submit_time", "state"} by {
        assert QueuedJobKeys[0] == "name" && QueuedJobKeys[1] == "submit_time" && QueuedJobKeys[2] == "state";
      }
      var job := new QueuedJob(a.value);
      r := Ok(job);
    }
  }

  /** A finished job, with the attributes its row gave. */
  class CompletedJob<V> {
    var attrs: map<string, V>

    constructor (attrs: map<string, V>)
      ensures this.attrs == attrs
    {
      this.attrs := attrs;
    }

    /** `CompletedJob(sql_dict)`: takes exactly `name`, `passwd`,
        `archive_time` and `directory` from the row. */
    static method Create(row: map<string, V>) returns (r: Result<CompletedJob<V>, string>)
      ensures r.Ok? <==> "name" in row && "passwd" in row && "archive_time" in row && "directory" in row
      ensures r.Ok? ==> fresh(r.value) &&
                        r.value.attrs.Keys == {"name", "passwd", "archive_time", "directory"}
      ensures r.Ok? ==> forall k :: k in r.value.attrs ==> r.value.attrs[k] == row[k]
    {
      var a := CopyAttributes(CompletedJobKeys, row);
      if a.Err? {
        return Err(a.error);
      }
      assert a.value.Keys == {"name", "passwd", "archive_time", "directory"} by {
        assert CompletedJobKeys[0] == "name" && CompletedJobKeys[1] == "passwd";
        assert CompletedJobKeys[2] == "archive_time" && CompletedJobKeys[3] == "directory";
      }
      var job := new CompletedJob(a.value);
      r := Ok(job);
    }
  }

  /** The source's example: a row with an extra column `foo` gives a
      queued job without it. */
  method QueuedJobExample() returns (attrs: map<string, string>)
    ensures attrs == map["name" := "testname", "submit_time" := "testst", "state" := "teststate"]
  {
    var row := map["foo" := "bar", "name" := "testname", "submit_time" := "testst", "state" := "teststate"];
    var r := QueuedJob.Create(row);
    attrs := r.value.attrs;
  }

  // ---------------------------------------------------------------------
  // _read_config: Flask config keys
  // ---------------------------------------------------------------------

  /** One section of the configuration file, with its options as
      `ConfigParser.items` returns them. */
  datatype Section = Section(name: string, items: seq<(string, string)>)

  /** `'' if section == 'general' else section.upper() + '_'`. */
  function SectionPrefix(section: string): string {
    if section == "general" then "" else Upper(section) + "_"
  }

  /** The Flask config key of option `name` in `section`. */
  function ConfigKey(section: string, name: string): (k: string)
    ensures forall i :: 0 <= i < |k| ==> !IsAsciiLower(k[i])
  {
    var k := SectionPrefix(section) + Upper(name);
    assert forall i :: 0 <= i < |Upper(name)| ==> !IsAsciiLower(Upper(name)[i]);
    assert section != "general" ==> forall i :: 0 <= i < |Upper(section)| ==> !IsAsciiLower(Upper(section)[i]);
    k
  }

  /** Options of `[general]` keep their upper-cased name; options of any
      other section get the upper-cased section name and `_` in front. */
  lemma ConfigKeyForms(section: string, name: string)
    ensures section == "general" ==> ConfigKey(section, name) == Upper(name)
    ensures section != "general" ==> ConfigKey(section, name) == Upper(section) + "_" + Upper(name)
    ensures |ConfigKey(section, name)| == |name| + (if section == "general" then 0 else |section| + 1)
  {
  }

  /** The config after the options of `items` (with one prefix) are
      written in order. */
  function ApplyItems(config: map<string, string>, prefix: string, items: seq<(string, string)>): map<string, string>
  {
    if items == [] then config
    else
      var last := items[|items| - 1];
      ApplyItems(config, prefix, items[..|items| - 1])[prefix + Upper(last.0) := last.1]
  }

  /** The config after every section is written in order. */
  function ApplySections(config: map<string, string>, sections: seq<Section>): map<string, string>
  {
    if sections == [] then config
    else
      var last := sections[|sections| - 1];
      ApplyItems(ApplySections(config, sections[..|sections| - 1]), SectionPrefix(last.name), last.items)
  }

  /** The loops of `_read_config` that copy the file's options into the
      Flask config. Reading the file itself, and the second file holding
      the database user and password, are not modelled. */
  method ReadConfig(config: map<string, string>, sections: seq<Section>) returns (result: map<string, string>)
    ensures result == ApplySections(config, sections)
  {
    result := config;
    var i := 0;
    while i < |sections|
      invariant 0 <= i <= |sections|
      invariant result == ApplySections(config, sections[..i])
    {
      var section := sections[i];
      assert sections[..i + 1][..i] == sections[..i];
      result := WriteItems(result, SectionPrefix(section.name), section.items);
      i := i + 1;
    }
    assert sections[..i] == sections;
  }

  /** The inner loop of `_read_config`: the options of one section written
      in order under one prefix. */
  method WriteItems(before: map<string, string>, prefix: string, items: seq<(string, string)>)
    returns (result: map<string, string>)
    ensures result == ApplyItems(before, prefix, items)
  {
    result := before;
    var j := 0;
    while j < |items|
      invariant 0 <= j <= |items|
      invariant result == ApplyItems(before, prefix, items[..j])
    {
      var (name, value) := items[j];
      assert items[..j + 1][..j] == items[..j];
      result := result[prefix + Upper(name) := value];
      j := j + 1;
    }
    assert items[..j] == items;
  }

  /** Writing options: a key is present afterwards exactly when it was
      before or some option produces it; the last option producing a key
      gives its value; keys no option produces keep their value. */
  lemma {:induction false} ApplyItemsLookup(config: map<string, string>, prefix: string,
                                            items: seq<(string, string)>, k: string)
    ensures k in ApplyItems(config, prefix, items) <==>
            k in config || exists j :: 0 <= j < |items| && prefix + Upper(items[j].0) == k
    ensures (forall j :: 0 <= j < |items| ==> prefix + Upper(items[j].0) != k) && k in config ==>
            ApplyItems(config, prefix, items)[k] == config[k]
    ensures forall j :: 0 <= j < |items| && prefix + Upper(items[j].0) == k &&
                        (forall j2 :: j < j2 < |items| ==> prefix + Upper(items[j2].0) != k) ==>
                        ApplyItems(config, prefix, items)[k] == items[j].1
  {
    if items != [] {
      var n := |items| - 1;
      var init := items[..n];
      ApplyItemsLookup(config, prefix, init, k);
      assert forall j :: 0 <= j < n ==> init[j] == items[j];
      if exists j :: 0 <= j < |items| && prefix + Upper(items[j].0) == k {
        var j :| 0 <= j < |items| && prefix + Upper(items[j].0) == k;
        if j < n {
          assert init[j] == items[j];
        }
      }
    }
  }

  /** Every option of every section ends up under its key. */
  lemma ApplySectionsWritten(config: map<string, string>, sections: seq<Section>, i: nat, j: nat)
    requires i < |sections| && j < |sections[i].items|
    ensures ConfigKey(sections[i].name, sections[i].items[j].0) in ApplySections(config, sections)
  {
    var upto := sections[..i + 1];
    assert upto[i] == sections[i];
    ApplyLastSection(config, upto, j);
    ApplySectionsGrow(config, sections, i + 1, ConfigKey(sections[i].name, sections[i].items[j].0));
  }

  /** A key written by the first `m` sections is still there after all of
      them. */
  lemma {:induction false} ApplySectionsGrow(config: map<string, string>, sections: seq<Section>, m: nat, k: string)
    requires m <= |sections| && k in ApplySections(config, sections[..m])
    ensures k in ApplySections(config, sections)
    decreases |sections| - m
  {
    if m == |sections| {
      assert sections[..m] == sections;
    } else {
      var next := sections[..m + 1];
      assert next[..m] == sections[..m];
      ApplySectionsKeeps(config, next, k);
      ApplySectionsGrow(config, sections, m + 1, k);
    }
  }

  /** The last section never removes a key the ones before it wrote. */
  lemma ApplySectionsKeeps(config: map<string, string>, sections: seq<Section>, k: string)
    requires sections != [] && k in ApplySections(config, sections[..|sections| - 1])
    ensures k in ApplySections(config, sections)
  {
    var last := sections[|sections| - 1];
    ApplyItemsKeeps(ApplySections(config, sections[..|sections| - 1]), SectionPrefix(last.name), last.items, k);
  }

  /** Every option of the last section is written. */
  lemma ApplyLastSection(config: map<string, string>, sections: seq<Section>, j: nat)
    requires sections != [] && j < |sections[|sections| - 1].items|
    ensures ConfigKey(sections[|sections| - 1].name, sections[|sections| - 1].items[j].0) in ApplySections(config, sections)
  {
    var last := sections[|sections| - 1];
    ApplyItemsWrites(ApplySections(config, sections[..|sections| - 1]), SectionPrefix(last.name), last.items, j);
  }

  /** Writing options never removes a key. */
  lemma ApplyItemsKeeps(config: map<string, string>, prefix: string, items: seq<(string, string)>, k: string)
    requires k in config
    ensures k in ApplyItems(config, prefix, items)
  {
    ApplyItemsLookup(config, prefix, items, k);
  }

  /** Every option written is present afterwards. */
  lemma ApplyItemsWrites(config: map<string, string>, prefix: string, items: seq<(string, string)>, j: nat)
    requires j < |items|
    ensures prefix + Upper(items[j].0) in ApplyItems(config, prefix, items)
  {
    ApplyItemsLookup(config, prefix, items, prefix + Upper(items[j].0));
  }

  /** A key that no option of any section produces keeps its old value,
      and is present afterwards only if it was before. */
  lemma {:induction false} ApplySectionsUntouched(config: map<string, string>, sections: seq<Section>, k: string)
    requires forall i, j :: 0 <= i < |sections| && 0 <= j < |sections[i].items| ==>
               ConfigKey(sections[i].name, sections[i].items[j].0) != k
    ensures k in ApplySections(config, sections) <==> k in config
    ensures k in config ==> ApplySections(config, sections)[k] == config[k]
  {
    if sections != [] {
      var n := |sections| - 1;
      var last := sections[n];
      assert forall i :: 0 <= i < n ==> sections[..n][i] == sections[i];
      ApplySectionsUntouched(config, sections[..n], k);
      ApplyItemsLookup(ApplySections(config, sections[..n]), SectionPrefix(last.name), last.items, k);
    }
  }
}
