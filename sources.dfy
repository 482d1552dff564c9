/** An RSS source (cmsplugin_rss_import/models.py, class RSSSource): where to fetch, how
    to read each item (the processing settings), on which schedule, and the
    validation the admin runs before saving one. */
module Sources {
  import opened Wrappers
  import opened Json
  import Text
  import Schedules

  datatype RSSSource = RSSSource(
    pk: Option<nat>,
    name: string,
    url: string,
    task: string,
    settings: Json,
    enabled: bool,
    interval: Option<Schedules.IntervalSchedule>,
    crontab: Option<Schedules.CrontabSchedule>,
    startDate: Option<int>,
    endDate: Option<int>,
    reverse: bool)

  /** The validation errors of `RSSSource.clean`, one per message. A few
      messages are raised from two places; they are one error here. */
  datatype SourceError =
    | NoSchedule                 // 'You must set an interval or a cronjob'
    | TwoSchedules               // 'You must set only one between an interval or a cronjob'
    | BelowOneMinute             // 'An interval cannot be less than 1 minute'
    | BelowSixtySeconds          // 'An interval cannot be less than 60 seconds'
    | StartInPast                // 'The start date should be after the current day and time'
    | EndInPast                  // 'The expire date should be after the current day and time'
    | EndNotAfterStart           // 'The expire date should be greater than start date'
    | NoWrapper                  // 'You must define a "wrapper" ...'
    | NoFields                   // 'You must define "fields" ...'
    | NoUnique                   // 'You must define "unique" values ...'
    | UniqueNotList              // 'Unique field must be an array ...'
    | FieldsNotList              // 'Field must be an array ...'
    | FieldNotDict               // 'All the fields must be dictionaries ...'
    | FieldWithoutSource         // 'You must define a "source" value in all the fields'
    | EmptyWithoutAttributes     // 'You must define "attributes" to read if field are empty'
    | AttributesNotStringOrList  // 'Attribute values must be either a string or list'
    | AttributeNotStringOrDict   // 'The attributes list must include either a dictionary or a string'
    | AttributeWithoutSource     // 'The attributes objects must include a source'
    | ImageWithoutLocation       // 'You must define a "location" for an empty image'
    | UniqueNotAField            // 'Unique fields must be either source or target values of fields'
    | DuplicateSource            // 'You have another process configured with the same task and source ...'
    | TypeFault                  // not a ValidationError: `in` or `[...]` on settings that are not a dict

  // ---------------------------------------------------------------------------
  // The specification of clean: every check in source order, first failure wins
  // ---------------------------------------------------------------------------

  /** Lines 167-176: exactly one schedule, and an interval counted in
      minutes or seconds no shorter than a minute. */
  function ScheduleCheck(s: RSSSource): (r: Outcome<SourceError>)
    ensures r == Pass <==>
      (s.interval.Some? <==> s.crontab.None?)
      && (s.interval.Some? && s.interval.value.period == "minutes" ==> s.interval.value.frequency >= 1)
      && (s.interval.Some? && s.interval.value.period == "seconds" ==> s.interval.value.frequency >= 60)
    ensures r.Fail? ==> r.error in {NoSchedule, TwoSchedules, BelowOneMinute, BelowSixtySeconds}
  {
    if s.interval.None? && s.crontab.None? then Fail(NoSchedule)
    else if s.interval.Some? && s.crontab.Some? then Fail(TwoSchedules)
    else if s.interval.Some? && s.interval.value.frequency < 1 && s.interval.value.period == "minutes" then Fail(BelowOneMinute)
    else if s.interval.Some? && s.interval.value.frequency < 60 && s.interval.value.period == "seconds" then Fail(BelowSixtySeconds)
    else Pass
  }

  /** Lines 178-186: no date before now, and the end after the start. */
  function DateCheck(s: RSSSource, now: int): (r: Outcome<SourceError>)
    ensures r == Pass <==>
      (s.startDate.Some? ==> s.startDate.value >= now)
      && (s.endDate.Some? ==> s.endDate.value >= now)
      && (s.startDate.Some? && s.endDate.Some? ==> s.endDate.value > s.startDate.value)
    ensures r.Fail? ==> r.error in {StartInPast, EndInPast, EndNotAfterStart}
  {
    if s.startDate.Some? && s.startDate.value < now then Fail(StartInPast)
    else if s.endDate.Some? && s.endDate.value < now then Fail(EndInPast)
    else if s.startDate.Some? && s.endDate.Some? && s.endDate.value <= s.startDate.value then Fail(EndNotAfterStart)
    else Pass
  }

  /** The presence and shape checks on the settings; on success, the
      `fields` and `unique` lists. */
  function ShapeCheck(settings: Json): (r: Result<(seq<Json>, seq<Json>), SourceError>)
    ensures r.Err? ==> r.error in {TypeFault, NoWrapper, NoFields, NoUnique, UniqueNotList, FieldsNotList}
    ensures r.Err? && r.error == TypeFault ==> !settings.JObject?
  {
    var hasWrapper, hasFields, hasUnique := PyIn("wrapper", settings), PyIn("fields", settings), PyIn("unique", settings);
    if hasWrapper.None? then Err(TypeFault)
    else if !hasWrapper.value then Err(NoWrapper)
    else if hasFields.None? then Err(TypeFault)
    else if !hasFields.value then Err(NoFields)
    else if hasUnique.None? then Err(TypeFault)
    else if !hasUnique.value then Err(NoUnique)
    else if !HasKey(settings, "unique") then Err(TypeFault)
    else if !settings.fields["unique"].JList? then Err(UniqueNotList)
    else if !HasKey(settings, "fields") then Err(TypeFault)
    else if !settings.fields["fields"].JList? then Err(FieldsNotList)
    else if |settings.fields["unique"].items| == 0 then Err(NoUnique)
    else if |settings.fields["fields"].items| == 0 then Err(NoFields)
    else Ok((settings.fields["fields"].items, settings.fields["unique"].items))
  }

  /** One entry of a field's `attributes` list. The second test looks at the
      list itself, which is never a dict at this point, so it cannot fail. */
  function AttributeCheck(attributes: Json, atrr: Json): Outcome<SourceError> {
    if !atrr.JString? && !atrr.JObject? then Fail(AttributeNotStringOrDict)
    else if attributes.JObject? && PyIn("source", atrr) != Some(true) then Fail(AttributeWithoutSource)
    else Pass
  }

  /** The attribute entries, in order; the first failing one decides. */
  function AttributesCheck(attributes: Json, items: seq<Json>): Outcome<SourceError> {
    if items == [] then Pass
    else
      var before := AttributesCheck(attributes, items[..|items| - 1]);
      if before.Fail? then before else AttributeCheck(attributes, items[|items| - 1])
  }

  function EmptyCheck(f: map<string, Json>): Outcome<SourceError> {
    if "attributes" !in f then Fail(EmptyWithoutAttributes)
    else if !f["attributes"].JString? && !f["attributes"].JList? then Fail(AttributesNotStringOrList)
    else if f["attributes"].JList? then AttributesCheck(f["attributes"], f["attributes"].items)
    else Pass
  }

  /** One field descriptor; on success, the name it is stored under (its
      `target`, or its `source` when it has none). `identity` stands for the
      outcome of `field["type"] is "image"`, an object-identity test whose
      result CPython does not fix. */
  function FieldCheck(field: Json, identity: bool): (r: Result<Json, SourceError>)
    ensures r.Ok? ==> field.JObject? && "source" in field.fields
    ensures !field.JObject? ==> r == Err(FieldNotDict)
  {
    if !field.JObject? then Err(FieldNotDict)
    else
      var f := field.fields;
      if "source" !in f then Err(FieldWithoutSource)
      else if "empty" in f && EmptyCheck(f).Fail? then Err(EmptyCheck(f).error)
      else if "type" in f && identity && f["type"] == JString("image") && "empty" in f && "location" !in f then Err(ImageWithoutLocation)
      else Ok(if "target" in f then f["target"] else f["source"])
  }

  /** All field descriptors in order; on success, the stored names in order. */
  function FieldsCheck(fields: seq<Json>, identity: bool): Result<seq<Json>, SourceError> {
    if fields == [] then Ok([])
    else
      var before := FieldsCheck(fields[..|fields| - 1], identity);
      if before.Err? then before
      else
        var last := FieldCheck(fields[|fields| - 1], identity);
        if last.Err? then Err(last.error) else Ok(before.value + [last.value])
  }

  /** Every name in `unique` must be a stored field name. */
  function UniqueCheck(unique: seq<Json>, names: seq<Json>): (r: Outcome<SourceError>)
    ensures r == Pass || r == Fail(UniqueNotAField)
  {
    if unique == [] then Pass
    else
      var before := UniqueCheck(unique[..|unique| - 1], names);
      if before.Fail? then before
      else if unique[|unique| - 1] !in names then Fail(UniqueNotAField)
      else Pass
  }

  /** The stored sources with the same url and task, in query order. */
  function SameUrlAndTask(rows: seq<RSSSource>, url: string, task: string): (r: seq<RSSSource>)
    ensures forall x :: x in r <==> x in rows && x.url == url && x.task == task
  {
    if rows == [] then []
    else
      (if rows[0].url == url && rows[0].task == task then [rows[0]] else [])
      + SameUrlAndTask(rows[1..], url, task)
  }

  /** Lines 243-246: another stored source with the same url and task, met
      first, is a duplicate. */
  function DuplicateCheck(s: RSSSource, rows: seq<RSSSource>): (r: Outcome<SourceError>)
    ensures r == Pass || r == Fail(DuplicateSource)
    ensures r.Fail? ==> exists x :: x in rows && x.url == s.url && x.task == s.task && x.pk != s.pk
    ensures (forall x :: x in rows && x.url == s.url && x.task == s.task ==> x.pk == s.pk) ==> r == Pass
  {
    var qs := SameUrlAndTask(rows, s.url, s.task);
    if |qs| > 0 && s.pk != qs[0].pk then Fail(DuplicateSource) else Pass
  }

  /** `RSSSource.clean`: the outcome of every check, in the order the source
      makes them, given the current time and the stored sources. */
  function Clean(s: RSSSource, now: int, rows: seq<RSSSource>, identity: bool): Outcome<SourceError> {
    if ScheduleCheck(s).Fail? then ScheduleCheck(s)
    else if DateCheck(s, now).Fail? then DateCheck(s, now)
    else
      var shape := ShapeCheck(s.settings);
      if shape.Err? then Fail(shape.error)
      else
        var (fields, unique) := shape.value;
        var names := FieldsCheck(fields, identity);
        if names.Err? then Fail(names.error)
        else if UniqueCheck(unique, names.value).Fail? then UniqueCheck(unique, names.value)
        else DuplicateCheck(s, rows)
  }

  // ---------------------------------------------------------------------------
  // The validator as the source runs it: early exits and loops
  // ---------------------------------------------------------------------------

  /** `RSSSource.clean` step by step: straight-line checks, then a loop over
      the fields that collects their stored names, then a loop over `unique`. */
  method CleanSource(s: RSSSource, now: int, rows: seq<RSSSource>, identity: bool) returns (r: Outcome<SourceError>)
    ensures r == Clean(s, now, rows, identity)
  {
    if s.interval.None? && s.crontab.None? { return Fail(NoSchedule); }
    if s.interval.Some? && s.crontab.Some? { return Fail(TwoSchedules); }
    if s.interval.Some? {
      if s.interval.value.frequency < 1 && s.interval.value.period == "minutes" { return Fail(BelowOneMinute); }
      if s.interval.value.frequency < 60 && s.interval.value.period == "seconds" { return Fail(BelowSixtySeconds); }
    }
    if s.startDate.Some? && s.startDate.value < now { return Fail(StartInPast); }
    if s.endDate.Some? && s.endDate.value < now { return Fail(EndInPast); }
    if s.startDate.Some? && s.endDate.Some? && s.endDate.value <= s.startDate.value { return Fail(EndNotAfterStart); }

    var shape := ShapeCheck(s.settings);
    if shape.Err? { return Fail(shape.error); }
    var (fields, unique) := shape.value;

    var names := CollectFieldSources(fields, identity);
    if names.Err? { return Fail(names.error); }
    var uniqueOk := CheckUnique(unique, names.value);
    if uniqueOk.Fail? { return uniqueOk; }

    var qs := SameUrlAndTask(rows, s.url, s.task);
    if |qs| > 0 && s.pk != qs[0].pk { return Fail(DuplicateSource); }
    return Pass;
  }

  /** The field loop: each descriptor checked in turn, its stored name
      appended to `field_sources`; the first failing one ends the loop. */
  method CollectFieldSources(fields: seq<Json>, identity: bool) returns (r: Result<seq<Json>, SourceError>)
    ensures r == FieldsCheck(fields, identity)
  {
    var fieldSources: seq<Json> := [];
    var i := 0;
    while i < |fields|
      invariant 0 <= i <= |fields|
      invariant FieldsCheck(fields[..i], identity) == Ok(fieldSources)
    {
      var name := CheckField(fields[i], identity);
      assert fields[..i + 1][..i] == fields[..i];
      if name.Err? {
        FieldsErrorSticks(fields, i + 1, identity);
        return Err(name.error);
      }
      fieldSources := fieldSources + [name.value];
      i := i + 1;
    }
    assert fields[..i] == fields;
    return Ok(fieldSources);
  }

  /** The loop over `unique`: the first name that is not a stored field
      name ends it with an error. */
  method CheckUnique(unique: seq<Json>, fieldSources: seq<Json>) returns (r: Outcome<SourceError>)
    ensures r == UniqueCheck(unique, fieldSources)
  {
    var j := 0;
    while j < |unique|
      invariant 0 <= j <= |unique|
      invariant UniqueCheck(unique[..j], fieldSources) == Pass
    {
      assert unique[..j + 1][..j] == unique[..j];
      if unique[j] !in fieldSources {
        UniqueErrorSticks(unique, j + 1, fieldSources);
        return Fail(UniqueNotAField);
      }
      j := j + 1;
    }
    assert unique[..j] == unique;
    return Pass;
  }

  /** The body of the field loop: the checks on one field descriptor, with
      the inner loop over its attribute list. */
  method CheckField(field: Json, identity: bool) returns (r: Result<Json, SourceError>)
    ensures r == FieldCheck(field, identity)
  {
    if !field.JObject? { return Err(FieldNotDict); }
    var f := field.fields;
    if "source" !in f { return Err(FieldWithoutSource); }
    if "empty" in f {
      if "attributes" !in f {
        return Err(EmptyWithoutAttributes);
      } else if !f["attributes"].JString? && !f["attributes"].JList? {
        return Err(AttributesNotStringOrList);
      } else if f["attributes"].JList? {
        var attributes := f["attributes"];
        var items := attributes.items;
        var k := 0;
        while k < |items|
          invariant 0 <= k <= |items|
          invariant AttributesCheck(attributes, items[..k]) == Pass
        {
          assert items[..k + 1][..k] == items[..k];
          var atrr := items[k];
          if !atrr.JString? && !atrr.JObject? {
            AttributesErrorSticks(attributes, items, k + 1);
            return Err(AttributeNotStringOrDict);
          }
          if attributes.JObject? && PyIn("source", atrr) != Some(true) {
            return Err(AttributeWithoutSource);
          }
          k := k + 1;
        }
        assert items[..k] == items;
      }
    }
    if "type" in f {
      if identity && f["type"] == JString("image") && ("empty" in f && "location" !in f) {
        return Err(ImageWithoutLocation);
      }
    }
    if "target" !in f { return Ok(f["source"]); } else { return Ok(f["target"]); }
  }

  lemma {:induction false} FieldsErrorSticks(fields: seq<Json>, k: nat, identity: bool)
    requires k <= |fields| && FieldsCheck(fields[..k], identity).Err?
    ensures FieldsCheck(fields, identity) == FieldsCheck(fields[..k], identity)
    decreases |fields| - k
  {
    if k < |fields| {
      assert fields[..k + 1][..k] == fields[..k];
      FieldsErrorSticks(fields, k + 1, identity);
    } else {
      assert fields[..k] == fields;
    }
  }

  lemma {:induction false} AttributesErrorSticks(attributes: Json, items: seq<Json>, k: nat)
    requires k <= |items| && AttributesCheck(attributes, items[..k]).Fail?
    ensures AttributesCheck(attributes, items) == AttributesCheck(attributes, items[..k])
    decreases |items| - k
  {
    if k < |items| {
      assert items[..k + 1][..k] == items[..k];
      AttributesErrorSticks(attributes, items, k + 1);
    } else {
      assert items[..k] == items;
    }
  }

  lemma {:induction false} UniqueErrorSticks(unique: seq<Json>, k: nat, names: seq<Json>)
    requires k <= |unique| && UniqueCheck(unique[..k], names).Fail?
    ensures UniqueCheck(unique, names) == UniqueCheck(unique[..k], names)
    decreases |unique| - k
  {
    if k < |unique| {
      assert unique[..k + 1][..k] == unique[..k];
      UniqueErrorSticks(unique, k + 1, names);
    } else {
      assert unique[..k] == unique;
    }
  }

  // ---------------------------------------------------------------------------
  // What a source that passes clean looks like
  // ---------------------------------------------------------------------------

  /** The name a checked field is stored under. */
  function StoredName(f: map<string, Json>): Json
    requires "source" in f
  {
    if "target" in f then f["target"] else f["source"]
  }

  /** A field descriptor as clean accepts it: a dict with a `source`, and,
      when it has `empty`, `attributes` that are a string or a list of
      strings and dicts. */
  predicate WellFormedField(field: Json) {
    && field.JObject?
    && "source" in field.fields
    && ("empty" in field.fields ==>
          && "attributes" in field.fields
          && (field.fields["attributes"].JString? || field.fields["attributes"].JList?)
          && (field.fields["attributes"].JList? ==>
                forall a :: a in field.fields["attributes"].items ==> a.JString? || a.JObject?))
  }

  lemma {:induction false} AttributesPass(attributes: Json, items: seq<Json>)
    requires AttributesCheck(attributes, items) == Pass
    ensures forall a :: a in items ==> a.JString? || a.JObject?
  {
    if items != [] {
      var init := items[..|items| - 1];
      AttributesPass(attributes, init);
      assert items == init + [items[|items| - 1]];
    }
  }

  lemma FieldPass(field: Json, identity: bool)
    requires FieldCheck(field, identity).Ok?
    ensures WellFormedField(field)
    ensures FieldCheck(field, identity).value == StoredName(field.fields)
  {
    var f := field.fields;
    if "empty" in f && f["attributes"].JList? {
      AttributesPass(f["attributes"], f["attributes"].items);
    }
  }

  lemma {:induction false} FieldsPass(fields: seq<Json>, identity: bool)
    requires FieldsCheck(fields, identity).Ok?
    ensures var names := FieldsCheck(fields, identity).value;
      && |names| == |fields|
      && forall k :: 0 <= k < |fields| ==> WellFormedField(fields[k]) && names[k] == StoredName(fields[k].fields)
  {
    if fields != [] {
      var init := fields[..|fields| - 1];
      FieldsPass(init, identity);
      FieldPass(fields[|fields| - 1], identity);
    }
  }

  lemma {:induction false} UniquePass(unique: seq<Json>, names: seq<Json>)
    requires UniqueCheck(unique, names) == Pass
    ensures forall u :: u in unique ==> u in names
  {
    if unique != [] {
      var init := unique[..|unique| - 1];
      UniquePass(init, names);
      assert unique == init + [unique[|unique| - 1]];
    }
  }

  lemma ShapePass(settings: Json)
    requires ShapeCheck(settings).Ok?
    ensures settings.JObject?
    ensures var st := settings.fields;
      && "wrapper" in st && "fields" in st && "unique" in st
      && st["fields"].JList? && |st["fields"].items| > 0
      && st["unique"].JList? && |st["unique"].items| > 0
      && ShapeCheck(settings).value == (st["fields"].items, st["unique"].items)
  {}

  /** Every unique name is the stored name of a well-formed field. */
  lemma NamesCover(fields: seq<Json>, unique: seq<Json>, identity: bool)
    requires FieldsCheck(fields, identity).Ok?
    requires UniqueCheck(unique, FieldsCheck(fields, identity).value) == Pass
    ensures forall f :: f in fields ==> WellFormedField(f)
    ensures forall u :: u in unique ==> exists f :: f in fields && WellFormedField(f) && u == StoredName(f.fields)
  {
    var names := FieldsCheck(fields, identity).value;
    FieldsPass(fields, identity);
    UniquePass(unique, names);
    forall u | u in unique
      ensures exists f :: f in fields && WellFormedField(f) && u == StoredName(f.fields)
    {
      var k :| 0 <= k < |names| && names[k] == u;
      assert fields[k] in fields;
    }
    forall f | f in fields ensures WellFormedField(f) {
      var k :| 0 <= k < |fields| && fields[k] == f;
    }
  }

  /** What clean guarantees about the schedule of a source it accepts: one
      schedule, at least a minute between runs for a seconds interval, and
      dates not in the past and in order. */
  lemma CleanPassSchedule(s: RSSSource, now: int, rows: seq<RSSSource>, identity: bool)
    requires Clean(s, now, rows, identity) == Pass
    ensures s.interval.Some? != s.crontab.Some?
    ensures s.interval.Some? && s.interval.value.period == "seconds" ==> s.interval.value.frequency >= 60
    ensures s.startDate.Some? ==> s.startDate.value >= now
    ensures s.endDate.Some? ==> s.endDate.value >= now
    ensures s.startDate.Some? && s.endDate.Some? ==> s.endDate.value > s.startDate.value
  {
    CleanPassParts(s, now, rows, identity);
  }

  /** What clean guarantees about the settings of a source it accepts: a
      `wrapper` and non-empty `fields` and `unique` lists, well-formed
      fields, every unique name stored by some field; and no other source
      for the same url and task ahead of it. */
  lemma CleanPassMeans(s: RSSSource, now: int, rows: seq<RSSSource>, identity: bool)
    requires Clean(s, now, rows, identity) == Pass
    ensures s.settings.JObject?
    ensures var st := s.settings.fields;
      && "wrapper" in st && "fields" in st && "unique" in st
      && st["fields"].JList? && |st["fields"].items| > 0
      && st["unique"].JList? && |st["unique"].items| > 0
      && (forall f :: f in st["fields"].items ==> WellFormedField(f))
      && (forall u :: u in st["unique"].items ==>
            exists f :: f in st["fields"].items && WellFormedField(f) && u == StoredName(f.fields))
    ensures forall k :: 0 <= k < |rows| && rows[k].url == s.url && rows[k].task == s.task ==>
      SameUrlAndTask(rows, s.url, s.task)[0].pk == s.pk
  {
    CleanPassParts(s, now, rows, identity);
    ShapePass(s.settings);
    var (fields, unique) := ShapeCheck(s.settings).value;
    NamesCover(fields, unique, identity);
    DuplicatePass(s, rows);
  }

  lemma CleanPassParts(s: RSSSource, now: int, rows: seq<RSSSource>, identity: bool)
    requires Clean(s, now, rows, identity) == Pass
    ensures ScheduleCheck(s) == Pass && DateCheck(s, now) == Pass && DuplicateCheck(s, rows) == Pass
    ensures ShapeCheck(s.settings).Ok?
    ensures var (fields, unique) := ShapeCheck(s.settings).value;
      FieldsCheck(fields, identity).Ok? && UniqueCheck(unique, FieldsCheck(fields, identity).value) == Pass
  {}

  lemma DuplicatePass(s: RSSSource, rows: seq<RSSSource>)
    requires DuplicateCheck(s, rows) == Pass
    ensures forall k :: 0 <= k < |rows| && rows[k].url == s.url && rows[k].task == s.task ==>
      SameUrlAndTask(rows, s.url, s.task)[0].pk == s.pk
  {
    forall k | 0 <= k < |rows| && rows[k].url == s.url && rows[k].task == s.task
      ensures SameUrlAndTask(rows, s.url, s.task)[0].pk == s.pk
    {
      assert rows[k] in SameUrlAndTask(rows, s.url, s.task);
    }
  }

  /** The check on the entries of an attribute list reads the list itself
      (never a dict at that point), so clean never reports an attribute dict
      without a `source`. */
  lemma {:induction false} AttributeSourceNeverReported(attributes: Json, items: seq<Json>)
    requires attributes.JList?
    ensures AttributesCheck(attributes, items) != Fail(AttributeWithoutSource)
  {
    if items != [] {
      AttributeSourceNeverReported(attributes, items[..|items| - 1]);
    }
  }

  lemma {:induction false} FieldsNeverReportAttributeSource(fields: seq<Json>, identity: bool)
    ensures FieldsCheck(fields, identity) != Err(AttributeWithoutSource)
  {
    if fields != [] {
      FieldsNeverReportAttributeSource(fields[..|fields| - 1], identity);
      var field := fields[|fields| - 1];
      if field.JObject? && "attributes" in field.fields && field.fields["attributes"].JList? {
        var a := field.fields["attributes"];
        AttributeSourceNeverReported(a, a.items);
      }
    }
  }

  /** Whatever the source and the settings, clean never answers 'The
      attributes objects must include a source'. */
  lemma CleanNeverReportsAttributeSource(s: RSSSource, now: int, rows: seq<RSSSource>, identity: bool)
    ensures Clean(s, now, rows, identity) != Fail(AttributeWithoutSource)
  {
    var shape := ShapeCheck(s.settings);
    if shape.Ok? {
      FieldsNeverReportAttributeSource(shape.value.0, identity);
    }
  }

  /** The schedule is checked first: a source with neither or both schedules
      is rejected for that, whatever else is wrong with it. */
  lemma ScheduleCheckedFirst(s: RSSSource, now: int, rows: seq<RSSSource>, identity: bool)
    ensures s.interval.None? && s.crontab.None? ==> Clean(s, now, rows, identity) == Fail(NoSchedule)
    ensures s.interval.Some? && s.crontab.Some? ==> Clean(s, now, rows, identity) == Fail(TwoSchedules)
  {}

  // ---------------------------------------------------------------------------
  // get_period_in_seconds and the scheduler job id
  // ---------------------------------------------------------------------------

  /** A source's period: its interval's, or one hour for a crontab, whose
      period is not estimated. */
  function SourcePeriodInSeconds(s: RSSSource): (r: int)
    ensures s.interval.Some? ==> r == Schedules.PeriodInSeconds(s.interval.value)
    ensures s.interval.None? ==> r == 3600
    ensures s.interval.Some? && s.interval.value.frequency >= 0 ==> r >= s.interval.value.frequency
  {
    if s.interval.Some? then Schedules.PeriodInSeconds(s.interval.value) else 60 * 60
  }

  /** A source that passes clean, on an interval that passes its own clean in
      one of the offered units, runs at most once a minute. */
  lemma ValidatedPeriodAtLeastOneMinute(s: RSSSource, now: int, rows: seq<RSSSource>, identity: bool, intervals: seq<Schedules.IntervalSchedule>)
    requires Clean(s, now, rows, identity) == Pass
    requires s.interval.Some? ==> Schedules.CleanInterval(s.interval.value, intervals) == Pass
    requires s.interval.Some? ==> s.interval.value.period in Schedules.PeriodChoices
    ensures SourcePeriodInSeconds(s) >= 60
  {
    CleanPassSchedule(s, now, rows, identity);
    if s.interval.Some? {
      var i := s.interval.value;
      assert i.period == "seconds" || i.period == "minutes" || i.period == "hours" || i.period == "days" || i.period == "weeks";
    }
  }

  /** The id of the scheduler job that runs a source: `url + ':' + task`. */
  function JobId(url: string, task: string): (id: string)
    ensures |id| == |url| + 1 + |task|
    ensures id[..|url|] == url && id[|url|] == ':' && id[|url| + 1..] == task
  {
    url + ":" + task
  }

  /** Task names are Python function names and hold no colon; then the job id
      determines the source's url and task, although urls hold colons. */
  lemma JobIdInjective(u1: string, t1: string, u2: string, t2: string)
    requires ':' !in t1 && ':' !in t2
    requires JobId(u1, t1) == JobId(u2, t2)
    ensures u1 == u2 && t1 == t2
  {
    var id := JobId(u1, t1);
    assert |u1| == |u2|;
    assert u1 == id[..|u1|] == u2;
    assert t1 == id[|u1| + 1..] == t2;
  }
}
