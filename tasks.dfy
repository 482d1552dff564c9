/** The import thread (cmsplugin_rss_import/tasks.py, class RssProcessingThread): for
    each item of a fetched feed, map the item's elements to content as the
    source's processing settings describe, look for an earlier import with
    the same unique values, keep one import, and move it through its
    statuses, fetching its images on the way.

    Fetching and parsing the feed, matching the pattern in the database,
    parsing dates and downloading images are foreign; they come in as
    parameters: the parsed items, `matches`, `parseDate` and `download`. */
module Tasks {
  import opened Wrappers
  import opened Json
  import Text
  import opened Imports

  /** A feed element, as the code reads it: its text (None when it has
      none) and its attributes. */
  datatype Element = Element(text: Option<string>, attrib: map<string, string>)

  /** One feed item: for each path a field names, the first element found
      under it (`item.find(path)`); a path that finds nothing is absent. */
  type Item = map<string, Element>

  /** The Python exceptions the per-item code can raise; any of them ends
      the whole run (the `except Exception` around the loop). */
  datatype Fault = KeyError | TypeError | AttributeError | IndexError | ParseError

  /** One entry of `image_fields`. */
  datatype ImageField = ImageField(name: string, url: Option<string>)

  /** What mapping one field descriptor produces: the name it is stored
      under, the content, and the image entry of an image field. */
  datatype FieldOut = FieldOut(name: string, content: Value, image: Option<ImageField>)

  // ---------------------------------------------------------------------------
  // Python operations on JSON values
  // ---------------------------------------------------------------------------

  /** `j[key]`: a dict answers or raises KeyError, anything else raises
      TypeError. */
  function Lookup(j: Json, key: string): (r: Result<Json, Fault>)
    ensures r.Ok? <==> HasKey(j, key)
    ensures r.Ok? ==> r.value == j.fields[key]
    ensures j.JObject? && r.Err? ==> r.error == KeyError
  {
    if !j.JObject? then Err(TypeError)
    else if key !in j.fields then Err(KeyError)
    else Ok(j.fields[key])
  }

  /** `for x in j`: a list gives its items and a string its characters; an
      empty dict gives nothing. Anything else raises TypeError; a
      non-empty dict is treated so as well, see the README. */
  function Iterate(j: Json): (r: Result<seq<Json>, Fault>)
    ensures j.JList? ==> r == Ok(j.items)
    ensures j.JString? ==> r.Ok? && |r.value| == |j.s| && forall k :: 0 <= k < |j.s| ==> r.value[k] == JString([j.s[k]])
    ensures (j.JNull? || j.JBool? || j.JInt?) ==> r == Err(TypeError)
  {
    match j
    case JList(xs) => Ok(xs)
    case JString(s) => Ok(seq(|s|, k requires 0 <= k < |s| => JString([s[k]])))
    case JObject(m) => if |m| == 0 then Ok([]) else Err(TypeError)
    case _ => Err(TypeError)
  }

  /** `field['target'] if 'target' in field else field['source']`, as a key
      of the stored content. */
  function StoredName(f: Json): (r: Result<string, Fault>)
    ensures r.Ok? <==> f.JObject? && TargetOrSource(f).Some?
    ensures r.Ok? ==> TargetOrSource(f) == Some(r.value)
  {
    if !f.JObject? then Err(TypeError)
    else
      var key := if "target" in f.fields then "target" else "source";
      if key !in f.fields then Err(KeyError)
      else if f.fields[key].JString? then Ok(f.fields[key].s)
      else Err(TypeError)
  }

  /** `field_content.text`, which raises AttributeError when nothing was found. */
  function ElementText(found: Option<Element>): (r: Result<Option<string>, Fault>)
    ensures r.Ok? <==> found.Some?
    ensures r.Ok? ==> r.value == found.value.text
  {
    if found.None? then Err(AttributeError) else Ok(found.value.text)
  }

  // ---------------------------------------------------------------------------
  // Mapping a field descriptor against an item (tasks.py, lines 48-81)
  // ---------------------------------------------------------------------------

  /** An attribute descriptor of a field's attribute list that maps without
      raising: a dict with a string target-or-source and a `source` naming an
      attribute of the element found. */
  predicate AttributeOk(a: Json, found: Option<Element>) {
    a.JObject? && TargetOrSource(a).Some? && HasKey(a, "source") && a.fields["source"].JString?
    && found.Some? && a.fields["source"].s in found.value.attrib
  }

  /** One attribute descriptor: the name it is stored under and the
      element's attribute named by its `source` (line 56-57). */
  function AttributeEntry(a: Json, found: Option<Element>): (r: Result<(string, string), Fault>)
    ensures r.Ok? <==> AttributeOk(a, found)
    ensures r.Ok? ==> (Some(r.value.0) == TargetOrSource(a)
      && r.value.1 == found.value.attrib[a.fields["source"].s])
  {
    if !a.JObject? then Err(TypeError)
    else
      var name :- StoredName(a);
      if found.None? then Err(AttributeError)
      else
        var src :- Lookup(a, "source");
        if src.JString? && src.s in found.value.attrib then Ok((name, found.value.attrib[src.s]))
        else if src.JList? || src.JObject? then Err(TypeError)
        else Err(KeyError)
  }

  /** The dict a list of attribute descriptors builds, one entry after the
      other, so a later descriptor with the same name overwrites. */
  function AttrsFold(attrs: seq<Json>, entry: Json -> Result<(string, string), Fault>): Result<map<string, string>, Fault>
  {
    if attrs == [] then Ok(map[])
    else
      var m :- AttrsFold(attrs[..|attrs| - 1], entry);
      var e :- entry(attrs[|attrs| - 1]);
      Ok(m[e.0 := e.1])
  }

  /** The attribute loop maps exactly when every descriptor does. */
  lemma {:induction false} AttrsFoldDefined(attrs: seq<Json>, entry: Json -> Result<(string, string), Fault>)
    ensures AttrsFold(attrs, entry).Ok? <==> forall k :: 0 <= k < |attrs| ==> entry(attrs[k]).Ok?
  {
    if attrs != [] {
      var n := |attrs| - 1;
      var prefix := attrs[..n];
      AttrsFoldDefined(prefix, entry);
      assert forall k :: 0 <= k < n ==> prefix[k] == attrs[k];
    }
  }

  /** The names the descriptors that map are stored under. */
  function EntryNames(attrs: seq<Json>, entry: Json -> Result<(string, string), Fault>): set<string> {
    set k | 0 <= k < |attrs| && entry(attrs[k]).Ok? :: entry(attrs[k]).value.0
  }

  /** A list that maps holds one entry per name, and no other. */
  lemma {:induction false} AttrsFoldNames(attrs: seq<Json>, entry: Json -> Result<(string, string), Fault>)
    requires AttrsFold(attrs, entry).Ok?
    ensures AttrsFold(attrs, entry).value.Keys == EntryNames(attrs, entry)
  {
    if attrs != [] {
      var n := |attrs| - 1;
      var prefix := attrs[..n];
      AttrsFoldNames(prefix, entry);
      var m := AttrsFold(prefix, entry).value;
      var e := entry(attrs[n]).value;
      assert AttrsFold(attrs, entry).value.Keys == m.Keys + {e.0};
      assert forall k :: 0 <= k < n ==> prefix[k] == attrs[k];
      assert EntryNames(attrs, entry) == EntryNames(prefix, entry) + {e.0} by {
        forall x | x in EntryNames(attrs, entry) ensures x in EntryNames(prefix, entry) + {e.0} {
          var k :| 0 <= k < |attrs| && entry(attrs[k]).Ok? && entry(attrs[k]).value.0 == x;
          if k < n {
            assert entry(prefix[k]).Ok? && entry(prefix[k]).value.0 == x;
          }
        }
      }
    }
  }

  /** Each name holds the value of the last descriptor stored under it. */
  lemma {:induction false} AttrsFoldLastWins(attrs: seq<Json>, entry: Json -> Result<(string, string), Fault>, k: nat)
    requires AttrsFold(attrs, entry).Ok?
    requires k < |attrs| && entry(attrs[k]).Ok?
    requires forall j :: k < j < |attrs| && entry(attrs[j]).Ok? ==> entry(attrs[j]).value.0 != entry(attrs[k]).value.0
    ensures entry(attrs[k]).value.0 in AttrsFold(attrs, entry).value
    ensures AttrsFold(attrs, entry).value[entry(attrs[k]).value.0] == entry(attrs[k]).value.1
  {
    var n := |attrs| - 1;
    var prefix := attrs[..n];
    var m := AttrsFold(prefix, entry).value;
    var e := entry(attrs[n]).value;
    assert AttrsFold(attrs, entry).value == m[e.0 := e.1];
    if k < n {
      assert forall j :: k < j < |prefix| ==> prefix[j] == attrs[j];
      assert prefix[k] == attrs[k];
      AttrsFoldLastWins(prefix, entry, k);
    }
  }

  /** One attribute descriptor against the element found, as a step of the loop. */
  function EntryStep(found: Option<Element>): Json -> Result<(string, string), Fault> {
    a => AttributeEntry(a, found)
  }

  /** Lines 55-57 for a list of attribute descriptors. */
  function AttributesSpec(attrs: seq<Json>, found: Option<Element>): Result<map<string, string>, Fault> {
    AttrsFold(attrs, EntryStep(found))
  }

  /** The list maps exactly when every descriptor does; then it holds one
      entry per stored name, and no other. */
  lemma AttributesSpecShape(attrs: seq<Json>, found: Option<Element>)
    ensures AttributesSpec(attrs, found).Ok? <==> forall k :: 0 <= k < |attrs| ==> AttributeOk(attrs[k], found)
    ensures AttributesSpec(attrs, found).Ok? ==>
      forall name :: name in AttributesSpec(attrs, found).value <==> exists k :: 0 <= k < |attrs| && TargetOrSource(attrs[k]) == Some(name)
  {
    var entry := EntryStep(found);
    assert forall k :: 0 <= k < |attrs| ==> entry(attrs[k]) == AttributeEntry(attrs[k], found);
    AttrsFoldDefined(attrs, entry);
    if AttributesSpec(attrs, found).Ok? {
      AttrsFoldNames(attrs, entry);
      forall name ensures name in AttributesSpec(attrs, found).value <==> exists k :: 0 <= k < |attrs| && TargetOrSource(attrs[k]) == Some(name) {
        if name in AttributesSpec(attrs, found).value {
          var k :| 0 <= k < |attrs| && entry(attrs[k]).Ok? && entry(attrs[k]).value.0 == name;
          assert TargetOrSource(attrs[k]) == Some(name);
        }
        if exists k :: 0 <= k < |attrs| && TargetOrSource(attrs[k]) == Some(name) {
          var k :| 0 <= k < |attrs| && TargetOrSource(attrs[k]) == Some(name);
          assert entry(attrs[k]).value.0 == name;
        }
      }
    }
  }

  /** Each name holds the attribute of the last descriptor stored under it. */
  lemma AttributesLastWins(attrs: seq<Json>, found: Option<Element>, k: nat)
    requires AttributesSpec(attrs, found).Ok?
    requires k < |attrs|
    requires forall j :: k < j < |attrs| ==> TargetOrSource(attrs[j]) != TargetOrSource(attrs[k])
    ensures AttributeOk(attrs[k], found)
    ensures TargetOrSource(attrs[k]).value in AttributesSpec(attrs, found).value
    ensures AttributesSpec(attrs, found).value[TargetOrSource(attrs[k]).value]
      == found.value.attrib[attrs[k].fields["source"].s]
  {
    var entry := EntryStep(found);
    assert forall j :: 0 <= j < |attrs| ==> entry(attrs[j]) == AttributeEntry(attrs[j], found);
    AttrsFoldDefined(attrs, entry);
    AttrsFoldLastWins(attrs, entry, k);
  }

  /** Lines 51-57: under `empty`, a string `attributes` takes that one
      attribute of the element, and a list builds a dict of them. */
  function AttributeContent(field: Json, found: Option<Element>): (r: Result<Value, Fault>)
    ensures HasKey(field, "attributes") && field.fields["attributes"].JString? ==>
      (r.Ok? <==> found.Some? && field.fields["attributes"].s in found.value.attrib)
      && (r.Ok? ==> r.value == VText(Some(found.value.attrib[field.fields["attributes"].s])))
    ensures HasKey(field, "attributes") && field.fields["attributes"].JList? ==>
      (r.Ok? <==> AttributesSpec(field.fields["attributes"].items, found).Ok?)
      && (r.Ok? ==> r.value == VAttrs(AttributesSpec(field.fields["attributes"].items, found).value))
    ensures !HasKey(field, "attributes") ==> r.Err?
  {
    var attributes :- Lookup(field, "attributes");
    if attributes.JString? then
      if found.None? then Err(AttributeError)
      else if attributes.s in found.value.attrib then Ok(VText(Some(found.value.attrib[attributes.s])))
      else Err(KeyError)
    else
      var items :- Iterate(attributes);
      var m :- AttributesSpec(items, found);
      Ok(VAttrs(m))
  }

  /** A Python index into a string: an int (a bool counts as 0 or 1). */
  function IndexOf(j: Json): Option<int> {
    if j.JInt? then Some(j.i) else if j.JBool? then Some(if j.b then 1 else 0) else None
  }

  /** Line 64, `content[field["location"]]`: a key of the attribute dict,
      or an index into the single attribute string (negative from the end). */
  function ImageUrl(content: Value, location: Json): (r: Result<Option<string>, Fault>)
    ensures content.VAttrs? && location.JString? ==>
      (r.Ok? <==> location.s in content.attrs) && (r.Ok? ==> r.value == Some(content.attrs[location.s]))
    ensures content.VText? && content.text.Some? && r.Ok? ==>
      var s := content.text.value;
      IndexOf(location).Some? && -|s| <= IndexOf(location).value < |s|
      && r.value == Some([s[if IndexOf(location).value < 0 then IndexOf(location).value + |s| else IndexOf(location).value]])
  {
    match content
    case VAttrs(m) =>
      if location.JString? then (if location.s in m then Ok(Some(m[location.s])) else Err(KeyError))
      else if location.JList? || location.JObject? then Err(TypeError)
      else Err(KeyError)
    case VText(Some(s)) =>
      var i := IndexOf(location);
      if i.None? then Err(TypeError)
      else if -|s| <= i.value < |s| then Ok(Some([s[if i.value < 0 then i.value + |s| else i.value]]))
      else Err(IndexError)
    case _ => Err(TypeError)
  }

  /** A descriptor whose `type` is "image". */
  predicate IsImageField(field: Json) {
    HasKey(field, "type") && field.fields["type"] == JString("image")
  }

  /** A descriptor whose `type` is "date". */
  predicate IsDateField(field: Json) {
    HasKey(field, "type") && field.fields["type"] == JString("date")
  }

  /** Lines 59-78: the content by `type`, and for an image the url. Without
      `type` and with `empty`, the attribute content is kept. */
  function TypedContent(field: Json, found: Option<Element>, attributeContent: Option<Value>,
                        parseDate: (Option<string>, Json) -> Option<string>): (r: Result<(Value, Option<Option<string>>), Fault>)
    requires field.JObject?
    requires attributeContent.Some? <==> "empty" in field.fields
    ensures r.Ok? ==> (r.value.1.Some? <==> IsImageField(field))
  {
    var f := field.fields;
    if "type" in f then
      if f["type"] == JString("image") then
        if attributeContent.Some? then
          var location :- Lookup(field, "location");
          var url :- ImageUrl(attributeContent.value, location);
          Ok((attributeContent.value, Some(url)))
        else
          var text :- ElementText(found);
          Ok((VText(text), Some(text)))
      else if f["type"] == JString("date") then
        var text :- ElementText(found);
        if "save_format" in f then
          match parseDate(text, f["save_format"])
          case Some(d) => Ok((VText(Some(d)), None))
          case None => Err(ParseError)
        else Ok((VText(text), None))
      else
        var text :- ElementText(found);
        Ok((VText(text), None))
    else if attributeContent.None? then
      var text :- ElementText(found);
      Ok((VText(text), None))
    else Ok((attributeContent.value, None))
  }

  /** The element a descriptor's `source` path finds in the item. */
  function Found(field: Json, item: Item): Option<Element>
    requires HasKey(field, "source") && field.fields["source"].JString?
  {
    var path := field.fields["source"].s;
    if path in item then Some(item[path]) else None
  }

  /** One pass of the field loop: look the `source` path up, take the
      attribute content under `empty`, then the content by `type`, and
      store it under the target-or-source name. */
  function MapField(field: Json, item: Item, parseDate: (Option<string>, Json) -> Option<string>): (r: Result<FieldOut, Fault>)
    ensures r.Ok? ==> field.JObject? && TargetOrSource(field) == Some(r.value.name)
    ensures r.Ok? ==> (r.value.image.Some? <==> IsImageField(field))
    ensures r.Ok? && r.value.image.Some? ==> r.value.image.value.name == r.value.name
  {
    var path :- Lookup(field, "source");
    if !path.JString? then Err(TypeError)
    else
      var found := Found(field, item);
      var attributeContent :- if "empty" in field.fields then
          (var c :- AttributeContent(field, found); Ok(Some(c)))
        else Ok(None);
      var typed :- TypedContent(field, found, attributeContent, parseDate);
      var name :- StoredName(field);
      Ok(FieldOut(name, typed.0, if typed.1.Some? then Some(ImageField(name, typed.1.value)) else None))
  }

  /** A descriptor that names a string `source` path and a string name. */
  predicate Addressable(field: Json) {
    HasKey(field, "source") && field.fields["source"].JString? && TargetOrSource(field).Some?
  }

  /** A field that is neither image nor date, and has `type` or lacks
      `empty`, stores the element's text; a `type` overrides attribute
      content taken under `empty`. Nothing found raises AttributeError. */
  lemma TextFieldStoresText(field: Json, item: Item, parseDate: (Option<string>, Json) -> Option<string>)
    requires Addressable(field)
    requires var f := field.fields;
      ("type" in f && !IsImageField(field) && !IsDateField(field)) || ("type" !in f && "empty" !in f)
    requires "empty" in field.fields ==> AttributeContent(field, Found(field, item)).Ok?
    ensures var path := field.fields["source"].s;
      (path in item ==> MapField(field, item, parseDate) == Ok(FieldOut(TargetOrSource(field).value, VText(item[path].text), None)))
      && (path !in item ==> MapField(field, item, parseDate) == Err(AttributeError))
  {
    var found := Found(field, item);
    if "empty" in field.fields {
      var c := AttributeContent(field, found).value;
      assert TypedContent(field, found, Some(c), parseDate) == (if found.Some? then Ok((VText(found.value.text), None)) else Err(AttributeError));
    }
  }

  /** An untyped field under `empty` stores the attribute content: the one
      attribute a string `attributes` names, or the dict a list builds. */
  lemma AttributeFieldStoresAttributes(field: Json, item: Item, parseDate: (Option<string>, Json) -> Option<string>)
    requires Addressable(field)
    requires "empty" in field.fields && "type" !in field.fields
    ensures AttributeContent(field, Found(field, item)).Ok? ==>
      MapField(field, item, parseDate) == Ok(FieldOut(TargetOrSource(field).value, AttributeContent(field, Found(field, item)).value, None))
    ensures AttributeContent(field, Found(field, item)).Err? ==> MapField(field, item, parseDate).Err?
  {
  }

  /** An image field yields exactly one image entry under its stored name.
      Without `empty` its url is the element's text, which is also what is
      stored; with `empty` the url is the attribute content at `location`. */
  lemma ImageFieldEntry(field: Json, item: Item, parseDate: (Option<string>, Json) -> Option<string>)
    requires Addressable(field) && IsImageField(field)
    requires MapField(field, item, parseDate).Ok?
    ensures var out := MapField(field, item, parseDate).value;
      var found := Found(field, item);
      out.image.Some? && out.image.value.name == out.name
      && ("empty" !in field.fields ==> found.Some? && out.image.value.url == found.value.text && out.content == VText(found.value.text))
      && ("empty" in field.fields ==>
            HasKey(field, "location") && AttributeContent(field, found).Ok?
            && out.content == AttributeContent(field, found).value
            && ImageUrl(out.content, field.fields["location"]) == Ok(out.image.value.url))
  {
    var found := Found(field, item);
    if "empty" in field.fields {
      var c := AttributeContent(field, found);
      assert c.Ok?;
      var t := TypedContent(field, found, Some(c.value), parseDate);
      assert t.Ok?;
    } else {
      var t := TypedContent(field, found, None, parseDate);
      assert t.Ok?;
    }
  }

  // ---------------------------------------------------------------------------
  // The field loop
  // ---------------------------------------------------------------------------

  /** One field descriptor against a fixed item, as a step of the loop. */
  function MapStep(item: Item, parseDate: (Option<string>, Json) -> Option<string>): Json -> Result<FieldOut, Fault> {
    field => MapField(field, item, parseDate)
  }

  /** `item_to_save` and `image_fields` after the given descriptors, one
      after the other; a later field with the same name overwrites. */
  function FieldsFold(fields: seq<Json>, step: Json -> Result<FieldOut, Fault>): Result<(Content, seq<ImageField>), Fault>
  {
    if fields == [] then Ok((map[], []))
    else
      var acc :- FieldsFold(fields[..|fields| - 1], step);
      var out :- step(fields[|fields| - 1]);
      Ok((acc.0[out.name := out.content], acc.1 + (if out.image.Some? then [out.image.value] else [])))
  }

  /** One more descriptor that maps extends the stored content and the image list. */
  lemma FieldsFoldStep(fields: seq<Json>, i: nat, step: Json -> Result<FieldOut, Fault>)
    requires i < |fields| && FieldsFold(fields[..i], step).Ok? && step(fields[i]).Ok?
    ensures var acc, out := FieldsFold(fields[..i], step).value, step(fields[i]).value;
      FieldsFold(fields[..i + 1], step) == Ok((acc.0[out.name := out.content], acc.1 + (if out.image.Some? then [out.image.value] else [])))
  {
    assert fields[..i + 1][..i] == fields[..i];
    assert fields[..i + 1][i] == fields[i];
  }

  /** Once a prefix of the descriptors raises, the whole loop does. */
  lemma {:induction false} FieldsFoldErrorSticks(fields: seq<Json>, k: nat, step: Json -> Result<FieldOut, Fault>)
    requires k <= |fields|
    requires FieldsFold(fields[..k], step).Err?
    ensures FieldsFold(fields, step) == FieldsFold(fields[..k], step)
  {
    if k < |fields| {
      var n := |fields| - 1;
      assert fields[..n][..k] == fields[..k];
      FieldsFoldErrorSticks(fields[..n], k, step);
    } else {
      assert fields[..k] == fields;
    }
  }

  /** The number of image descriptors. */
  function ImageFieldCount(fields: seq<Json>): nat {
    if fields == [] then 0
    else ImageFieldCount(fields[..|fields| - 1]) + (if IsImageField(fields[|fields| - 1]) then 1 else 0)
  }

  /** A step that yields an image entry exactly for image descriptors, as
      `MapField` does. */
  ghost predicate ImagesForImageFields(step: Json -> Result<FieldOut, Fault>) {
    forall f :: step(f).Ok? ==> (step(f).value.image.Some? <==> IsImageField(f))
  }

  /** The loop stores every descriptor's value under its name and nothing
      else, and lists one image entry per image descriptor. */
  lemma {:induction false} FieldsFoldShape(fields: seq<Json>, step: Json -> Result<FieldOut, Fault>)
    requires ImagesForImageFields(step)
    requires FieldsFold(fields, step).Ok?
    ensures var r := FieldsFold(fields, step).value;
      |r.1| == ImageFieldCount(fields)
      && (forall k :: 0 <= k < |fields| ==> step(fields[k]).Ok?)
      && (forall name :: name in r.0 <==> exists k :: 0 <= k < |fields| && step(fields[k]).value.name == name)
  {
    if fields != [] {
      var n := |fields| - 1;
      var prefix := fields[..n];
      var acc := FieldsFold(prefix, step).value;
      var out := step(fields[n]).value;
      var r := FieldsFold(fields, step).value;
      assert r == (acc.0[out.name := out.content], acc.1 + (if out.image.Some? then [out.image.value] else []));
      FieldsFoldShape(prefix, step);
      assert forall k :: 0 <= k < n ==> prefix[k] == fields[k];
      forall name | name in r.0 ensures exists k :: 0 <= k < |fields| && step(fields[k]).value.name == name {
        if name != out.name {
          var k :| 0 <= k < n && step(prefix[k]).value.name == name;
          assert step(fields[k]).value.name == name;
        } else {
          assert step(fields[n]).value.name == name;
        }
      }
    }
  }

  /** Each stored name holds the content of the last descriptor stored
      under it. */
  lemma {:induction false} FieldsFoldLastWins(fields: seq<Json>, step: Json -> Result<FieldOut, Fault>, k: nat)
    requires FieldsFold(fields, step).Ok?
    requires k < |fields| && step(fields[k]).Ok?
    requires forall j :: k < j < |fields| && step(fields[j]).Ok? ==> step(fields[j]).value.name != step(fields[k]).value.name
    ensures step(fields[k]).value.name in FieldsFold(fields, step).value.0
    ensures FieldsFold(fields, step).value.0[step(fields[k]).value.name] == step(fields[k]).value.content
  {
    var n := |fields| - 1;
    var prefix := fields[..n];
    var acc := FieldsFold(prefix, step).value;
    var out := step(fields[n]).value;
    assert FieldsFold(fields, step).value.0 == acc.0[out.name := out.content];
    if k < n {
      assert forall j :: k < j < |prefix| ==> prefix[j] == fields[j];
      assert prefix[k] == fields[k];
      FieldsFoldLastWins(prefix, step, k);
    }
  }

  /** For the item loop: every descriptor maps, each name holds what its
      last descriptor stored, and there is one image entry per image
      descriptor. */
  lemma MapFieldsShape(fields: seq<Json>, item: Item, parseDate: (Option<string>, Json) -> Option<string>)
    requires FieldsFold(fields, MapStep(item, parseDate)).Ok?
    ensures var r := FieldsFold(fields, MapStep(item, parseDate)).value;
      |r.1| == ImageFieldCount(fields)
      && (forall k :: 0 <= k < |fields| ==> MapField(fields[k], item, parseDate).Ok?)
      && (forall name :: name in r.0 <==> exists k :: 0 <= k < |fields| && MapField(fields[k], item, parseDate).value.name == name)
  {
    var step := MapStep(item, parseDate);
    assert ImagesForImageFields(step) by {
      forall f | step(f).Ok? ensures step(f).value.image.Some? <==> IsImageField(f) {
        assert step(f) == MapField(f, item, parseDate);
      }
    }
    FieldsFoldShape(fields, step);
    assert forall k :: 0 <= k < |fields| ==> step(fields[k]) == MapField(fields[k], item, parseDate);
  }

  /** The field loop of `run`: fills `item_to_save`, appends to
      `image_fields` and raises `image_process` on an image descriptor. */
  method MapFields(fields: seq<Json>, item: Item, parseDate: (Option<string>, Json) -> Option<string>)
    returns (r: Result<(Content, seq<ImageField>), Fault>, imageProcess: bool)
    ensures r == FieldsFold(fields, MapStep(item, parseDate))
    ensures r.Ok? ==> (imageProcess <==> r.value.1 != [])
  {
    ghost var step := MapStep(item, parseDate);
    var itemToSave: Content := map[];
    var imageFields: seq<ImageField> := [];
    imageProcess := false;
    var i := 0;
    while i < |fields|
      invariant 0 <= i <= |fields|
      invariant FieldsFold(fields[..i], step) == Ok((itemToSave, imageFields))
      invariant imageProcess <==> imageFields != []
    {
      var out := MapField(fields[i], item, parseDate);
      assert out == step(fields[i]);
      if out.Err? {
        assert fields[..i + 1][..i] == fields[..i];
        assert fields[..i + 1][i] == fields[i];
        FieldsFoldErrorSticks(fields, i + 1, step);
        return Err(out.error), imageProcess;
      }
      var field := out.value;
      FieldsFoldStep(fields, i, step);
      if field.image.Some? {
        imageProcess := true;
        imageFields := imageFields + [field.image.value];
      } else {
        assert imageFields + [] == imageFields;
      }
      itemToSave := itemToSave[field.name := field.content];
      i := i + 1;
    }
    assert fields[..i] == fields;
    return Ok((itemToSave, imageFields)), imageProcess;
  }

  // ---------------------------------------------------------------------------
  // The pattern that finds an earlier import (tasks.py, lines 83-87)
  // ---------------------------------------------------------------------------

  /** `'%s' % value` for stored content; the text of a dict is left to `render`. */
  function Show(v: Value, render: Value -> string): string {
    match v
    case VText(Some(s)) => s
    case VText(None) => "None"
    case _ => render(v)
  }

  /** The text one unique field must appear with in the stored JSON. */
  function FieldText(name: string, v: Value, render: Value -> string): string {
    "\"" + name + "\":\"" + Show(v, render) + "\""
  }

  /** One lookahead group of the pattern. */
  function UniqueGroup(name: string, v: Value, render: Value -> string): string {
    "(?=.*" + Text.ReEscape(FieldText(name, v, render)) + ")"
  }

  /** One lookahead group per name, for a fixed way of showing values. */
  function GroupStep(render: Value -> string): (string, Value) -> string {
    (name, v) => UniqueGroup(name, v, render)
  }

  /** The pattern after the given unique names, in their order. A name that
      is not stored raises KeyError (TypeError when it cannot be a key). */
  function RegexFold(unique: seq<Json>, content: Content, group: (string, Value) -> string): Result<string, Fault>
  {
    if unique == [] then Ok("")
    else
      var acc :- RegexFold(unique[..|unique| - 1], content, group);
      var u := unique[|unique| - 1];
      if u.JString? && u.s in content then Ok(acc + group(u.s, content[u.s]))
      else if u.JList? || u.JObject? then Err(TypeError)
      else Err(KeyError)
  }

  /** The pattern exists exactly when every unique name is a stored string key. */
  lemma {:induction false} RegexFoldDefined(unique: seq<Json>, content: Content, group: (string, Value) -> string)
    ensures RegexFold(unique, content, group).Ok?
      <==> forall k :: 0 <= k < |unique| ==> unique[k].JString? && unique[k].s in content
  {
    if unique != [] {
      var prefix := unique[..|unique| - 1];
      RegexFoldDefined(prefix, content, group);
      assert forall k :: 0 <= k < |prefix| ==> prefix[k] == unique[k];
    }
  }

  /** The pattern of two lists of names is the two patterns one after the
      other: one group per name, in `unique` order. */
  lemma {:induction false} RegexFoldConcat(a: seq<Json>, b: seq<Json>, content: Content, group: (string, Value) -> string)
    requires RegexFold(a, content, group).Ok? && RegexFold(b, content, group).Ok?
    ensures RegexFold(a + b, content, group)
      == Ok(RegexFold(a, content, group).value + RegexFold(b, content, group).value)
  {
    if b == [] {
      assert a + b == a;
      assert RegexFold(a, content, group).value + "" == RegexFold(a, content, group).value;
    } else {
      var n := |b| - 1;
      var u := b[n];
      assert RegexFold(b[..n], content, group).Ok? && u.JString? && u.s in content;
      RegexFoldConcat(a, b[..n], content, group);
      assert (a + b)[..|a + b| - 1] == a + b[..n];
      assert (a + b)[|a + b| - 1] == u;
      var g := group(u.s, content[u.s]);
      var x, y := RegexFold(a, content, group).value, RegexFold(b[..n], content, group).value;
      assert RegexFold(b, content, group) == Ok(y + g);
      assert RegexFold(a + b, content, group) == Ok((x + y) + g);
      assert (x + y) + g == x + (y + g);
    }
  }

  /** A failing prefix of the names fails the whole pattern the same way. */
  lemma {:induction false} RegexFoldPrefixFails(unique: seq<Json>, k: nat, content: Content, group: (string, Value) -> string)
    requires k <= |unique|
    requires RegexFold(unique[..k], content, group).Err?
    ensures RegexFold(unique, content, group) == RegexFold(unique[..k], content, group)
  {
    if k < |unique| {
      var n := |unique| - 1;
      assert unique[..n][..k] == unique[..k];
      RegexFoldPrefixFails(unique[..n], k, content, group);
    } else {
      assert unique[..k] == unique;
    }
  }

  /** Each group is a lookahead for the literal text `"name":"value"`:
      the escaped part matches exactly that text. */
  lemma UniqueGroupLiteral(name: string, v: Value, render: Value -> string)
    ensures var g := UniqueGroup(name, v, render);
      |g| >= 6 && g[..5] == "(?=.*" && g[|g| - 1] == ')'
      && Text.RegexLiteral(g[5..|g| - 1]) == FieldText(name, v, render)
  {
    var e := Text.ReEscape(FieldText(name, v, render));
    var g := UniqueGroup(name, v, render);
    assert g == "(?=.*" + e + ")";
    assert g[5..|g| - 1] == e;
    Text.ReEscapeLiteral(FieldText(name, v, render));
  }

  /** The loop that builds `content_regex`. */
  method ContentRegex(unique: seq<Json>, content: Content, render: Value -> string) returns (r: Result<string, Fault>)
    ensures r == RegexFold(unique, content, GroupStep(render))
  {
    ghost var group := GroupStep(render);
    var contentRegex := "";
    var i := 0;
    while i < |unique|
      invariant 0 <= i <= |unique|
      invariant RegexFold(unique[..i], content, group) == Ok(contentRegex)
    {
      assert unique[..i + 1][..i] == unique[..i];
      assert unique[..i + 1][i] == unique[i];
      var u := unique[i];
      if !(u.JString? && u.s in content) {
        RegexFoldPrefixFails(unique, i + 1, content, group);
        return if u.JList? || u.JObject? then Err(TypeError) else Err(KeyError);
      }
      assert group(u.s, content[u.s]) == UniqueGroup(u.s, content[u.s], render);
      contentRegex := contentRegex + UniqueGroup(u.s, content[u.s], render);
      i := i + 1;
    }
    assert unique[..i] == unique;
    return Ok(contentRegex);
  }

  // ---------------------------------------------------------------------------
  // Keeping one import per item (tasks.py, lines 88-97)
  // ---------------------------------------------------------------------------

  /** `RSSImport.objects.filter(source=source, content__regex=regex)`, in
      table order; whether the stored content matches the pattern is left
      to `matches`. */
  function Matching(rows: seq<RSSImport>, source: nat, regex: string, matches: (string, Content) -> bool): (r: seq<RSSImport>)
    ensures forall x :: x in r <==> x in rows && x.source == source && matches(regex, x.content)
  {
    if rows == [] then []
    else
      var head := if rows[0].source == source && matches(regex, rows[0].content) then [rows[0]] else [];
      head + Matching(rows[1..], source, regex, matches)
  }

  /** After the deletions, a row survives exactly when it did not match or
      it is the first match. */
  lemma DedupSurvivors(rows: seq<RSSImport>, qs: seq<RSSImport>)
    requires UniqueIds(rows) && qs != [] && forall q :: q in qs ==> q in rows
    ensures forall x :: x in Without(rows, IdsOf(Without(qs, {qs[0].id}))) <==> x in rows && (x !in qs || x == qs[0])
  {
    var rest := Without(qs, {qs[0].id});
    forall x | x in rows
      ensures x.id in IdsOf(rest) <==> x in qs && x != qs[0]
    {
      if x.id in IdsOf(rest) {
        var y :| y in rest && y.id == x.id;
        SameIdSameRow(rows, x, y);
      }
      if x in qs && x != qs[0] {
        if x.id == qs[0].id {
          SameIdSameRow(rows, x, qs[0]);
        }
        assert x in rest;
      }
    }
  }

  /** Lines 95-97: `delete()` on every row of a query, one after the other. */
  method DeleteAll(t: ImportTable, qs: seq<RSSImport>)
    requires t.Valid()
    modifies t
    ensures t.Valid() && t.nextId == old(t.nextId)
    ensures t.rows == Without(old(t.rows), IdsOf(qs))
    ensures old(t.ShownAreComplete()) ==> t.ShownAreComplete()
  {
    ghost var rows0 := t.rows;
    ghost var deleted: set<nat> := {};
    WithoutNothing(rows0);
    var i := 0;
    while i < |qs|
      invariant 0 <= i <= |qs|
      invariant t.Valid() && t.nextId == old(t.nextId)
      invariant deleted == IdsOf(qs[..i])
      invariant t.rows == Without(rows0, deleted)
      invariant old(t.ShownAreComplete()) ==> t.ShownAreComplete()
    {
      t.Delete(qs[i].id);
      WithoutWithout(rows0, deleted, {qs[i].id});
      IdsOfSnoc(qs, i);
      deleted := deleted + {qs[i].id};
      i := i + 1;
    }
    assert qs[..i] == qs;
  }

  /** Lines 88-97: create the import when nothing matches; otherwise keep
      the first match and delete every other one. */
  method Dedup(t: ImportTable, source: nat, content: Content, regex: string, matches: (string, Content) -> bool)
    returns (imported: RSSImport)
    requires t.Valid()
    modifies t
    ensures t.Valid()
    ensures old(t.ShownAreComplete()) ==> t.ShownAreComplete()
    ensures imported in t.rows && imported.id < t.nextId
    ensures var qs := Matching(old(t.rows), source, regex, matches);
      qs == [] ==>
        imported == RSSImport(old(t.nextId), source, content, false, Scheduled)
        && t.rows == old(t.rows) + [imported] && t.nextId == old(t.nextId) + 1
    ensures var qs := Matching(old(t.rows), source, regex, matches);
      qs != [] ==>
        imported == qs[0] && t.nextId == old(t.nextId)
        && t.rows == Without(old(t.rows), IdsOf(Without(qs, {imported.id})))
        && forall x :: x in t.rows <==> x in old(t.rows) && (x !in qs || x == imported)
  {
    var qs := Matching(t.rows, source, regex, matches);
    if |qs| == 0 {
      imported := t.Create(source, content);
      return;
    }
    imported := qs[0];
    ghost var rows0 := t.rows;
    DeleteAll(t, Without(qs, {imported.id}));
    DedupSurvivors(rows0, qs);
  }

  // ---------------------------------------------------------------------------
  // Images (tasks.py, lines 120-163)
  // ---------------------------------------------------------------------------

  /** The `multimedia` dict of some content as `_save_image` reads it: a
      missing one starts empty, and a dict of attributes a field stored under
      that name is a dict like any other. Text there (or None) cannot take
      the image's key, in the `try` nor in the `except`, and raises. */
  function MediaOf(c: Content): (r: Result<map<string, MediaEntry>, Fault>)
    ensures r.Err? <==> "multimedia" in c && c["multimedia"].VText?
    ensures "multimedia" !in c ==> r == Ok(map[])
    ensures "multimedia" in c && c["multimedia"].VAttrs? ==>
      r.Ok? && r.value.Keys == c["multimedia"].attrs.Keys
      && forall k :: k in r.value ==> r.value[k] == Attribute(c["multimedia"].attrs[k])
  {
    if "multimedia" !in c then Ok(map[])
    else match c["multimedia"]
      case VMedia(m) => Ok(m)
      case VAttrs(m) => Ok(map k | k in m :: Attribute(m[k]))
      case VText(_) => Err(TypeError)
  }

  /** `urllib2.urlopen(image_url)` and the image record it leads to: the new
      image's id, or None when anything raised, which `urlopen` always does
      for a missing url. */
  function Fetch(url: Option<string>, download: string -> Option<nat>): (r: Option<nat>)
    ensures url.None? ==> r == None
    ensures url.Some? ==> r == download(url.value)
  {
    if url.None? then None else download(url.value)
  }

  /** `_save_image` on the import object: a field id already in
      `multimedia` leaves the content as it is; otherwise the fetched image
      id is recorded, None when the fetch failed. When `multimedia` then
      holds `total` entries the import is complete and shown, and saved. */
  function SaveImageSpec(imp: RSSImport, fieldId: string, url: Option<string>, total: nat,
                         download: string -> Option<nat>): (r: Result<(RSSImport, bool), Fault>)
    ensures r.Ok? <==> MediaOf(imp.content).Ok?
    ensures r.Ok? ==>
      var after := r.value.0;
      var m := MediaOf(imp.content).value;
      after.id == imp.id && after.source == imp.source
      && MediaOf(after.content).Ok?
      && (fieldId in m ==> after.content == imp.content)
      && (fieldId !in m ==> MediaOf(after.content).value == m[fieldId := Image(Fetch(url, download))])
      && (forall k :: k != "multimedia" ==> (k in after.content <==> k in imp.content))
      && (forall k :: k != "multimedia" && k in imp.content ==> after.content[k] == imp.content[k])
      && (r.value.1 <==> |MediaOf(after.content).value| == total)
      && (r.value.1 ==> after.status == Complete && after.enabled)
      && (!r.value.1 ==> after.status == imp.status && after.enabled == imp.enabled)
  {
    var m :- MediaOf(imp.content);
    var media := if fieldId in m then m else m[fieldId := Image(Fetch(url, download))];
    var updated := if fieldId in m then imp else imp.(content := imp.content["multimedia" := VMedia(media)]);
    if |media| == total then Ok((updated.(status := Complete, enabled := true), true))
    else Ok((updated, false))
  }

  /** `_save_image`: the import object is updated in memory, and written
      back only when it becomes complete. */
  method SaveImage(t: ImportTable, imp: RSSImport, fieldId: string, url: Option<string>, total: nat,
                   download: string -> Option<nat>) returns (r: Result<RSSImport, Fault>)
    requires t.Valid() && imp.id < t.nextId
    modifies t
    ensures t.Valid() && t.nextId == old(t.nextId)
    ensures old(t.ShownAreComplete()) ==> t.ShownAreComplete()
    ensures var s := SaveImageSpec(imp, fieldId, url, total, download);
      (s.Err? ==> r.Err? && t.rows == old(t.rows))
      && (s.Ok? ==> r == Ok(s.value.0) && t.rows == (if s.value.1 then Saved(old(t.rows), s.value.0) else old(t.rows)))
  {
    var itemToSave := imp.content;
    if "multimedia" !in itemToSave {
      itemToSave := itemToSave["multimedia" := VMedia(map[])];
    }
    var media :- MediaOf(itemToSave);
    var current := imp;
    if fieldId !in media {
      // The download, or the image record it creates, raised: None.
      var image := Fetch(url, download);
      media := media[fieldId := Image(image)];
      itemToSave := itemToSave["multimedia" := VMedia(media)];
      assert itemToSave == imp.content["multimedia" := VMedia(media)];
      current := imp.(content := itemToSave);
    }
    if |media| == total {
      current := current.(status := Complete, enabled := true);
      t.Save(current);
    }
    return Ok(current);
  }

  /** The import object after `_save_image` ran for the given image
      entries, and the last version of it that was saved, if any. Only the
      first entry can raise: after it `multimedia` is a dict. */
  function SaveImagesFold(imp: RSSImport, images: seq<ImageField>, total: nat,
                          download: string -> Option<nat>): (r: Result<(RSSImport, Option<RSSImport>), Fault>)
    ensures r.Ok? <==> images == [] || MediaOf(imp.content).Ok?
    ensures r.Ok? ==> r.value.0.id == imp.id && r.value.0.source == imp.source
    ensures r.Ok? && r.value.1.Some? ==>
      r.value.1.value.id == imp.id && r.value.1.value.status == Complete && r.value.1.value.enabled
  {
    if images == [] then Ok((imp, None))
    else
      var acc :- SaveImagesFold(imp, images[..|images| - 1], total, download);
      var last := images[|images| - 1];
      var s :- SaveImageSpec(acc.0, last.name, last.url, total, download);
      Ok((s.0, if s.1 then Some(s.0) else acc.1))
  }

  /** Once an image entry raises, the image loop does. */
  lemma {:induction false} SaveImagesErrorSticks(imp: RSSImport, images: seq<ImageField>, k: nat, total: nat,
                                                 download: string -> Option<nat>)
    requires k <= |images|
    requires SaveImagesFold(imp, images[..k], total, download).Err?
    ensures SaveImagesFold(imp, images, total, download) == SaveImagesFold(imp, images[..k], total, download)
  {
    if k < |images| {
      var n := |images| - 1;
      assert images[..n][..k] == images[..k];
      SaveImagesErrorSticks(imp, images[..n], k, total, download);
    } else {
      assert images[..k] == images;
    }
  }

  /** One more image entry: `_save_image` on the object so far. */
  lemma SaveImagesFoldStep(imp: RSSImport, images: seq<ImageField>, i: nat, total: nat,
                           download: string -> Option<nat>)
    requires i < |images| && SaveImagesFold(imp, images[..i], total, download).Ok?
    ensures var acc := SaveImagesFold(imp, images[..i], total, download).value;
      var s := SaveImageSpec(acc.0, images[i].name, images[i].url, total, download);
      (s.Err? ==> SaveImagesFold(imp, images[..i + 1], total, download).Err?)
      && (s.Ok? ==> SaveImagesFold(imp, images[..i + 1], total, download) == Ok((s.value.0, if s.value.1 then Some(s.value.0) else acc.1)))
  {
    assert images[..i + 1][..i] == images[..i];
    assert images[..i + 1][i] == images[i];
  }

  /** Lines 101-102: `_save_image` for each image entry in turn; the import
      is written back each time it becomes complete. */
  method SaveImages(t: ImportTable, imp: RSSImport, images: seq<ImageField>, total: nat,
                    download: string -> Option<nat>) returns (r: Result<RSSImport, Fault>)
    requires t.Valid() && imp.id < t.nextId
    modifies t
    ensures t.Valid() && t.nextId == old(t.nextId)
    ensures old(t.ShownAreComplete()) ==> t.ShownAreComplete()
    ensures var s := SaveImagesFold(imp, images, total, download);
      (s.Err? ==> r.Err? && t.rows == old(t.rows))
      && (s.Ok? ==> r == Ok(s.value.0) && t.rows == if s.value.1.Some? then Saved(old(t.rows), s.value.1.value) else old(t.rows))
  {
    ghost var rows0 := t.rows;
    ghost var lastSaved: Option<RSSImport> := None;
    var current := imp;
    var i := 0;
    assert images[..0] == [];
    while i < |images|
      invariant 0 <= i <= |images|
      invariant t.Valid() && t.nextId == old(t.nextId)
      invariant SaveImagesFold(imp, images[..i], total, download) == Ok((current, lastSaved))
      invariant t.rows == if lastSaved.Some? then Saved(rows0, lastSaved.value) else rows0
      invariant old(t.ShownAreComplete()) ==> t.ShownAreComplete()
    {
      SaveImagesFoldStep(imp, images, i, total, download);
      var image := images[i];
      var step := SaveImage(t, current, image.name, image.url, total, download);
      if step.Err? {
        SaveImagesErrorSticks(imp, images, i + 1, total, download);
        return step;
      }
      ghost var s := SaveImageSpec(current, image.name, image.url, total, download).value;
      if s.1 {
        if lastSaved.Some? {
          SavedTwice(rows0, lastSaved.value, s.0);
        }
        lastSaved := Some(s.0);
      }
      current := step.value;
      i := i + 1;
    }
    assert images[..i] == images;
    return Ok(current);
  }

  /** Lines 99-110: an import advances only from scheduled. With images it
      is saved as processing and then each image entry goes through
      `_save_image`; without, it is saved complete and shown. */
  method Advance(t: ImportTable, imp: RSSImport, images: seq<ImageField>, imageProcess: bool,
                 download: string -> Option<nat>) returns (r: Result<RSSImport, Fault>)
    requires t.Valid() && imp.id < t.nextId
    requires imageProcess <==> images != []
    modifies t
    ensures t.Valid() && t.nextId == old(t.nextId)
    ensures old(t.ShownAreComplete()) && ShownOnlyComplete(imp) ==> t.ShownAreComplete()
    ensures imp.status != Scheduled ==> r == Ok(imp) && t.rows == old(t.rows)
    ensures imp.status == Scheduled && images == [] ==>
      r == Ok(imp.(status := Complete, enabled := true)) && t.rows == Saved(old(t.rows), r.value)
    ensures imp.status == Scheduled && images != [] ==>
      var processing := imp.(status := Processing);
      var s := SaveImagesFold(processing, images, |images|, download);
      (s.Err? ==> r.Err? && t.rows == Saved(old(t.rows), processing))
      && (s.Ok? ==> r == Ok(s.value.0) && t.rows == Saved(old(t.rows), s.value.1.GetOr(processing)))
  {
    if imp.status != Scheduled {
      return Ok(imp);
    }
    if !imageProcess {
      var done := imp.(status := Complete, enabled := true);
      t.Save(done);
      return Ok(done);
    }
    var processing := imp.(status := Processing);
    t.Save(processing);
    r := SaveImages(t, processing, images, |images|, download);
    ghost var s := SaveImagesFold(processing, images, |images|, download);
    if s.Ok? && s.value.1.Some? {
      SavedTwice(old(t.rows), processing, s.value.1.value);
    }
  }

  /** The names of some image entries. */
  function NameSet(images: seq<ImageField>): set<string> {
    set k | 0 <= k < |images| :: images[k].name
  }

  predicate DistinctNames(images: seq<ImageField>) {
    forall i, j :: 0 <= i < j < |images| ==> images[i].name != images[j].name
  }

  /** The names of some entries are those of all but the last, and the
      last's. */
  lemma NameSetSnoc(images: seq<ImageField>)
    requires images != []
    ensures NameSet(images) == NameSet(images[..|images| - 1]) + {images[|images| - 1].name}
  {
    var n := |images| - 1;
    var prefix := images[..n];
    forall y | y in NameSet(images) ensures y in NameSet(prefix) + {images[n].name} {
      var k :| 0 <= k < |images| && images[k].name == y;
      if k < n { assert prefix[k].name == y; }
    }
    forall y | y in NameSet(prefix) ensures y in NameSet(images) {
      var k :| 0 <= k < n && prefix[k].name == y;
      assert images[k].name == y;
    }
  }

  /** Some entries have distinct names exactly when all but the last do
      and the last's name is new. */
  lemma DistinctSnoc(images: seq<ImageField>)
    requires images != []
    ensures DistinctNames(images) <==>
      DistinctNames(images[..|images| - 1]) && images[|images| - 1].name !in NameSet(images[..|images| - 1])
  {
    var n := |images| - 1;
    var prefix := images[..n];
    if DistinctNames(images) {
      forall i, j | 0 <= i < j < n ensures prefix[i].name != prefix[j].name {
        assert prefix[i] == images[i] && prefix[j] == images[j];
      }
    }
    if DistinctNames(prefix) && images[n].name !in NameSet(prefix) {
      forall i, j | 0 <= i < j < |images| ensures images[i].name != images[j].name {
        assert prefix[i] == images[i];
        if j < n {
          assert prefix[j] == images[j];
        } else {
          assert images[i].name in NameSet(prefix);
        }
      }
    }
  }

  /** There are at most as many names as entries, and as many exactly when
      no two entries share a name. */
  lemma {:induction false} NameSetSize(images: seq<ImageField>)
    ensures |NameSet(images)| <= |images|
    ensures |NameSet(images)| == |images| <==> DistinctNames(images)
  {
    if images != [] {
      var n := |images| - 1;
      NameSetSize(images[..n]);
      NameSetSnoc(images);
      DistinctSnoc(images);
    }
  }

  /** Starting from content without `multimedia` and `total` at least the
      number of entries: every entry's name gets an entry in `multimedia`,
      and the import becomes complete, shown and saved exactly when there are
      `total` distinct names; until then its status and flag are untouched
      and nothing is saved. */
  lemma {:induction false} SaveImagesState(imp: RSSImport, images: seq<ImageField>, total: nat,
                                           download: string -> Option<nat>)
    requires "multimedia" !in imp.content && images != [] && |images| <= total
    ensures SaveImagesFold(imp, images, total, download).Ok?
    ensures var after := SaveImagesFold(imp, images, total, download).value.0;
      MediaOf(after.content).Ok? && MediaOf(after.content).value.Keys == NameSet(images)
    ensures var (after, saved) := SaveImagesFold(imp, images, total, download).value;
      |NameSet(images)| == total ==> after.status == Complete && after.enabled && saved == Some(after)
    ensures var (after, saved) := SaveImagesFold(imp, images, total, download).value;
      |NameSet(images)| != total ==> after.status == imp.status && after.enabled == imp.enabled && saved == None
  {
    var n := |images| - 1;
    var prefix := images[..n];
    var last := images[n];
    NameSetSnoc(images);
    NameSetSize(prefix);
    if n == 0 {
      assert prefix == [];
    } else {
      SaveImagesState(imp, prefix, total, download);
    }
    var acc := SaveImagesFold(imp, prefix, total, download).value;
    assert acc.1 == None && acc.0.status == imp.status && acc.0.enabled == imp.enabled;
    ImageStepKeys(acc.0, last.name, last.url, total, download);
  }

  /** One `_save_image` adds the field id to the keys of `multimedia`. */
  lemma ImageStepKeys(imp: RSSImport, fieldId: string, url: Option<string>, total: nat,
                      download: string -> Option<nat>)
    requires MediaOf(imp.content).Ok?
    ensures var s := SaveImageSpec(imp, fieldId, url, total, download);
      s.Ok? && MediaOf(s.value.0.content).Ok?
      && MediaOf(s.value.0.content).value.Keys == MediaOf(imp.content).value.Keys + {fieldId}
  {
    var m := MediaOf(imp.content).value;
    if fieldId !in m {
      assert m[fieldId := Image(Fetch(url, download))].Keys == m.Keys + {fieldId};
    }
  }

  /** A field that stored its dict of attributes under the name `multimedia`
      does not stop the image loop: the image's id goes in beside the
      attribute entries, a missing url records None, and the completion test
      counts the attribute entries too. */
  lemma AttributesUnderMultimedia(imp: RSSImport, attrs: map<string, string>, fieldId: string, url: Option<string>,
                                  total: nat, download: string -> Option<nat>)
    requires "multimedia" in imp.content && imp.content["multimedia"] == VAttrs(attrs) && fieldId !in attrs
    ensures var s := SaveImageSpec(imp, fieldId, url, total, download);
      s.Ok?
      && MediaOf(s.value.0.content).value.Keys == attrs.Keys + {fieldId}
      && (forall k :: k in attrs ==> MediaOf(s.value.0.content).value[k] == Attribute(attrs[k]))
      && (url.None? ==> MediaOf(s.value.0.content).value[fieldId] == Image(None))
      && (s.value.1 <==> |attrs| + 1 == total)
  {
    var m := MediaOf(imp.content).value;
    var media := m[fieldId := Image(Fetch(url, download))];
    assert media.Keys == attrs.Keys + {fieldId};
    assert |media| == |attrs| + 1 by {
      assert |m.Keys| == |attrs.Keys|;
      assert fieldId !in m.Keys;
      assert |media.Keys| == |m.Keys| + 1;
    }
  }

  /** A scheduled item with image entries and no `multimedia` ends complete
      and shown exactly when no two of its image entries share a name; with
      a repeated name `multimedia` never reaches the number of entries and
      the import stays processing, unsaved since line 101. */
  lemma ImagesCompleteIffDistinct(imp: RSSImport, images: seq<ImageField>, download: string -> Option<nat>)
    requires "multimedia" !in imp.content && imp.status == Scheduled && images != []
    ensures var s := SaveImagesFold(imp.(status := Processing), images, |images|, download);
      s.Ok?
      && (DistinctNames(images) ==> s.value.0.status == Complete && s.value.0.enabled && s.value.1 == Some(s.value.0))
      && (!DistinctNames(images) ==> s.value.0.status == Processing && s.value.1 == None)
  {
    SaveImagesState(imp.(status := Processing), images, |images|, download);
    NameSetSize(images);
  }

  // ---------------------------------------------------------------------------
  // One item and the whole run (tasks.py, lines 36-115)
  // ---------------------------------------------------------------------------

  /** What an item yields before the database is touched: the content to
      store, the image entries and the pattern of its unique values. */
  function ItemPlan(settings: Json, item: Item, parseDate: (Option<string>, Json) -> Option<string>,
                    render: Value -> string): Result<(Content, seq<ImageField>, string), Fault>
  {
    var fieldsValue :- Lookup(settings, "fields");
    var fields :- Iterate(fieldsValue);
    var mapped :- FieldsFold(fields, MapStep(item, parseDate));
    var uniqueValue :- Lookup(settings, "unique");
    var unique :- Iterate(uniqueValue);
    var regex :- RegexFold(unique, mapped.0, GroupStep(render));
    Ok((mapped.0, mapped.1, regex))
  }

  /** The body of the item loop: map the fields, build the pattern, keep
      one import and advance it. */
  method ProcessItem(t: ImportTable, source: nat, settings: Json, item: Item,
                     parseDate: (Option<string>, Json) -> Option<string>, render: Value -> string,
                     matches: (string, Content) -> bool, download: string -> Option<nat>)
    returns (r: Outcome<Fault>)
    requires t.Valid()
    modifies t
    ensures t.Valid()
    ensures old(t.ShownAreComplete()) ==> t.ShownAreComplete()
    ensures var plan := ItemPlan(settings, item, parseDate, render);
      plan.Err? ==> r == Fail(plan.error) && t.rows == old(t.rows) && t.nextId == old(t.nextId)
    ensures var plan := ItemPlan(settings, item, parseDate, render);
      plan.Ok? ==>
        (t.nextId == old(t.nextId) + 1 <==> Matching(old(t.rows), source, plan.value.2, matches) == [])
        && (t.nextId == old(t.nextId) || t.nextId == old(t.nextId) + 1)
  {
    var fieldsValue := Lookup(settings, "fields");
    if fieldsValue.Err? { return Fail(fieldsValue.error); }
    var fields := Iterate(fieldsValue.value);
    if fields.Err? { return Fail(fields.error); }
    var mapped, imageProcess := MapFields(fields.value, item, parseDate);
    if mapped.Err? { return Fail(mapped.error); }
    var itemToSave, imageFields := mapped.value.0, mapped.value.1;

    var uniqueValue := Lookup(settings, "unique");
    if uniqueValue.Err? { return Fail(uniqueValue.error); }
    var unique := Iterate(uniqueValue.value);
    if unique.Err? { return Fail(unique.error); }
    var contentRegex := ContentRegex(unique.value, itemToSave, render);
    if contentRegex.Err? { return Fail(contentRegex.error); }

    var imported := Dedup(t, source, itemToSave, contentRegex.value, matches);
    var advanced := Advance(t, imported, imageFields, imageProcess, download);
    if advanced.Err? { return Fail(advanced.error); }
    return Pass;
  }

  /** The items in the order the loop takes them: document order, or
      reversed with `source.reverse`. */
  function Ordered(items: seq<Item>, reverse: bool): (r: seq<Item>)
    ensures |r| == |items|
    ensures forall k :: 0 <= k < |items| ==> r[k] == if reverse then items[|items| - 1 - k] else items[k]
  {
    if !reverse || items == [] then items
    else Ordered(items[1..], true) + [items[0]]
  }

  /** `run` after the feed is fetched and parsed: `items` is what the
      `wrapper` path finds. Every item is processed in order until one
      raises; `items_counter` counts the items that went through. */
  method Run(t: ImportTable, source: nat, settings: Json, items: seq<Item>, reverse: bool,
             parseDate: (Option<string>, Json) -> Option<string>, render: Value -> string,
             matches: (string, Content) -> bool, download: string -> Option<nat>)
    returns (itemsCounter: nat, totalItems: nat, fault: Option<Fault>)
    requires t.Valid()
    modifies t
    ensures t.Valid()
    ensures old(t.ShownAreComplete()) ==> t.ShownAreComplete()
    ensures !HasKey(settings, "wrapper") ==> fault.Some? && itemsCounter == 0 && t.rows == old(t.rows)
    ensures HasKey(settings, "wrapper") ==> totalItems == |items| && (fault.None? <==> itemsCounter == totalItems)
    ensures itemsCounter <= totalItems
  {
    itemsCounter := 0;
    totalItems := 0;
    var wrapper := Lookup(settings, "wrapper");
    if wrapper.Err? {
      return 0, 0, Some(wrapper.error);
    }
    totalItems := |items|;
    var ordered := Ordered(items, reverse);
    while itemsCounter < |ordered|
      invariant itemsCounter <= |ordered| == totalItems
      invariant t.Valid()
      invariant old(t.ShownAreComplete()) ==> t.ShownAreComplete()
    {
      var outcome := ProcessItem(t, source, settings, ordered[itemsCounter], parseDate, render, matches, download);
      if outcome.Fail? {
        return itemsCounter, totalItems, Some(outcome.error);
      }
      itemsCounter := itemsCounter + 1;
    }
    return itemsCounter, totalItems, None;
  }
}
