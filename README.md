# cmsplugin-rss-import, modelled in Dafny

cmsplugin-rss-import is a django CMS plugin. It fetches RSS feeds on a
schedule and stores each item as an `RSSImport` row. A page plugin renders a
source's latest complete imports. This project models the plugin's
deterministic core and proves what it promises:

- `schedules.dfy` covers the two schedule models (`IntervalSchedule`,
  `CrontabSchedule`): the interval's length in seconds, the interval
  validator and the two text summaries.
- `sources.dfy` covers `RSSSource`:
  - the full `clean` validator, as a function that reports the first
    failing check in source order, and as the step-by-step method the
    source runs;
  - the period used for caching;
  - the scheduler job id `url + ':' + task`.
- `feeds.dfy` covers the string side of the `RSSFeed` plugin: the tag
  search over the custom template, the cache key, and the cached template
  text built from the load, body and sekizai blocks.
- `imports.dfy` covers `RSSImport` rows and the table of them, with
  create (hidden and scheduled by default), delete and save.
- `tasks.dfy` covers the import thread: the field mapping of each item, the
  dedup pattern, keep-first dedup, the status transitions and the image
  bookkeeping of `_save_image`.
- `jobstores.py` is modelled in `jobstores.dfy`, as `DjangoJobStore` over a
  map keyed by the unique `job_id`.
- `admin.dfy` covers the show/hide admin actions, the per-status counts and
  the next run time shown for a source.
- `decorators.dfy` covers the task registry, and `widgets.dfy` the sorted,
  memoised task choices.
- `text.dfy` and `json.dfy` hold the Python operations the code relies on:
  `find`/`rfind`, slice bounds, `str(int)`, `re.escape`, `sorted`, and `in`
  or indexing on JSON values.

Foreign pieces are parameters of the model:

- the parsed feed items;
- the date parser (`parseDate`);
- how a non-string value is rendered inside the dedup pattern (`render`);
- the database regex match (`matches`);
- the image download (`download`, the new image id or None);
- APScheduler's job reconstitution (`restore`);
- the current time (`now`);
- the outcome of an identity test (`identity`).

Times are integers.

Behaviours of the code as written that the model keeps and proves:

- The attribute-source check of `RSSSource.clean` never fires
  (`Sources.CleanNeverReportsAttributeSource`).
- A template that opens with `{% addtoblock` and has no load tag is cached
  nearly twice (`Feeds.LeadingAddToBlockRepeatsTemplate`).
- An unclosed last load tag makes the load block the template's first six
  characters (`Feeds.UnclosedLoadTakesSixCharacters`).
- An import whose image fields share a name never leaves `processing`
  (`Tasks.ImagesCompleteIffDistinct`).

## Model

| member | source | states |
|---|---|---|
| Schedules.PeriodInSeconds | cmsplugin_rss_import/models.py:71-82 | frequency times 1, 60, 3600, 86400 or 604800 for seconds, minutes, hours, days or weeks; any other unit counts as seconds |
| Schedules.PeriodInSecondsMonotone | cmsplugin_rss_import/models.py:32-38 | for a positive frequency, a later unit in the choices never gives a shorter period |
| Schedules.SameInterval | cmsplugin_rss_import/models.py:53 | the stored intervals with this frequency and unit, and no others |
| Schedules.CleanInterval | cmsplugin_rss_import/models.py:48-59 | the validator fails with the frequency error exactly when the frequency is at most 0 |
| Schedules.SameIntervalCount | cmsplugin_rss_import/models.py:52-59 | the lookup finds more than one row iff two stored rows match; finding one means exactly one stored row matches |
| Schedules.CleanIntervalPasses | cmsplugin_rss_import/models.py:48-59 | the interval is valid iff the frequency is at least 1, at most one stored row matches, and every matching row is this one |
| Schedules.IntervalSummary | cmsplugin_rss_import/models.py:84-87 | `Every <unit without its last letter>` for a frequency of 1, `Every <n> <unit>` otherwise; what it determines is stated by the round trips below |
| Schedules.IntervalSummaryRoundTrip | cmsplugin_rss_import/models.py:84-87 | for a unit among the choices, the summary reads back to the frequency and the unit |
| Schedules.SingularRoundTrip | cmsplugin_rss_import/models.py:85-86 | a frequency of 1 drops the unit's last letter; for a one-word unit ending in `s`, the summary reads back |
| Schedules.PluralRoundTrip | cmsplugin_rss_import/models.py:87 | any other frequency, with a one-word unit, reads back from `Every <n> <unit>` |
| Schedules.PluralSplit | cmsplugin_rss_import/models.py:87 | the plural summary splits on spaces into `Every`, the printed frequency and the unit |
| Schedules.IntTextHasNoSpace | cmsplugin_rss_import/models.py:87 | the printed frequency holds no space, so the summary's words can be split apart again |
| Schedules.CrontabSummary | cmsplugin_rss_import/models.py:138-139 | the five columns with `*` for month and year; split back by CrontabSummaryColumns |
| Schedules.CrontabSummaryColumns | cmsplugin_rss_import/models.py:138-139 | the crontab summary splits into minute, hour, day, `*`, day of week, `*` |
| Sources.Clean | cmsplugin_rss_import/models.py:165-246 | the reference definition of `clean`: the outcome of the first check that fails, in the source's order; its meaning is stated by the CleanPass and NeverReports lemmas below |
| Sources.ScheduleCheck | cmsplugin_rss_import/models.py:167-177 | passes iff exactly one of interval and crontab is set and an interval in minutes is at least 1, in seconds at least 60; fails only with these four schedule errors |
| Sources.DateCheck | cmsplugin_rss_import/models.py:179-186 | passes iff no date is before now and the end, when both are set, comes after the start; fails only with these three date errors |
| Sources.ShapeCheck | cmsplugin_rss_import/models.py:188-207 | fails only with a missing-key, not-a-list or type error; the type error only when the settings are not a dict |
| Sources.FieldCheck | cmsplugin_rss_import/models.py:211-237 | an accepted field is a dict with `source`; a field that is not a dict is rejected as such |
| Sources.DuplicateCheck | cmsplugin_rss_import/models.py:243-246 | a duplicate is reported only when some stored source with this url and task has another pk; when every such source has this pk it passes |
| Sources.CleanSource | cmsplugin_rss_import/models.py:165-246 | the step-by-step validator (early exits, field loop collecting stored names, unique loop) returns exactly the first failure in source order given by `Clean` |
| Sources.CheckField | cmsplugin_rss_import/models.py:211-237 | one pass of the field loop reports exactly what the per-field specification reports, with the name the field is stored under |
| Sources.CollectFieldSources | cmsplugin_rss_import/models.py:209-237 | the field loop returns the stored names, in order, or the first failing field's error, exactly as the fields specification does |
| Sources.CheckUnique | cmsplugin_rss_import/models.py:239-241 | the unique loop stops at the first name that is not stored, exactly as the unique specification does |
| Sources.CleanPassSchedule | cmsplugin_rss_import/models.py:167-186 | a valid source has exactly one of interval and crontab, at least 60 seconds when counted in seconds, start and end not before now, and end after start |
| Sources.CleanPassMeans | cmsplugin_rss_import/models.py:188-246 | a valid source's settings have `wrapper` and non-empty `fields` and `unique` lists; every field is a dict with `source` whose `empty` implies string-or-list `attributes` of strings and dicts; every unique name is some field's target-or-source; any row with the same url and task puts this source first |
| Sources.CleanPassParts | cmsplugin_rss_import/models.py:165-246 | a valid source passes every individual check: schedule, dates, settings shape, fields, uniques, duplicates |
| Sources.ScheduleCheckedFirst | cmsplugin_rss_import/models.py:167-171 | no schedule, or both schedules, is reported before anything else is looked at |
| Sources.ShapePass | cmsplugin_rss_import/models.py:188-207 | passing the shape checks means a dict with `wrapper`, and non-empty `fields` and `unique` lists, which the checks hand on |
| Sources.FieldPass | cmsplugin_rss_import/models.py:211-237 | an accepted field is well formed, and its stored name is its `target`, or its `source` without one |
| Sources.FieldsPass | cmsplugin_rss_import/models.py:209-237 | accepted fields give one stored name per field, in order |
| Sources.AttributesPass | cmsplugin_rss_import/models.py:224-226 | an accepted attributes list holds only strings and dicts |
| Sources.UniqueCheck | cmsplugin_rss_import/models.py:239-241 | the unique check either passes or reports the unique-name error |
| Sources.UniquePass | cmsplugin_rss_import/models.py:239-241 | passing means every unique name is among the stored names |
| Sources.NamesCover | cmsplugin_rss_import/models.py:209-241 | every unique name is the target-or-source of some well-formed field |
| Sources.FieldsErrorSticks | cmsplugin_rss_import/models.py:211-216 | the first failing field decides the outcome; later fields are never looked at |
| Sources.AttributesErrorSticks | cmsplugin_rss_import/models.py:224-228 | the first failing attribute entry decides the outcome |
| Sources.UniqueErrorSticks | cmsplugin_rss_import/models.py:239-241 | the first unique name that is not stored decides the outcome |
| Sources.SameUrlAndTask | cmsplugin_rss_import/models.py:243 | the stored sources with this url and task, and no others |
| Sources.DuplicatePass | cmsplugin_rss_import/models.py:243-246 | passing means the first stored source with the same url and task is this one |
| Sources.AttributeSourceNeverReported | cmsplugin_rss_import/models.py:227-228 | the attribute-source check looks at the list instead of the entry, so it never fails |
| Sources.FieldsNeverReportAttributeSource | cmsplugin_rss_import/models.py:211-237 | no list of fields is rejected for an attribute without a source |
| Sources.CleanNeverReportsAttributeSource | cmsplugin_rss_import/models.py:165-246 | no source at all is rejected for an attribute without a source |
| Sources.SourcePeriodInSeconds | cmsplugin_rss_import/models.py:274-279 | the interval's period when there is an interval, one hour otherwise; never fewer seconds than a non-negative frequency |
| Sources.ValidatedPeriodAtLeastOneMinute | cmsplugin_rss_import/models.py:48-59 | a valid source on a valid interval with a unit among the choices runs at most once a minute |
| Sources.JobId | cmsplugin_rss_import/models.py:249 | the job id is the url, a colon and the task, in that order |
| Sources.JobIdInjective | cmsplugin_rss_import/models.py:249 | when tasks hold no colon, two sources share a job id only when they share url and task |
| Feeds.SearchTagEnd | cmsplugin_rss_import/models.py:347-365 | -1 iff the `{% tag` opening is absent; otherwise its first (or, with `last`, its last) index |
| Feeds.SearchTagEndClosed | cmsplugin_rss_import/models.py:357-361 | with `end` and a `%}` after the chosen tag, the index just past the first such `%}` |
| Feeds.SearchTagEndUnclosed | cmsplugin_rss_import/models.py:357-363 | with `end` and no `%}` after the chosen tag, `len('{% ' + tag) - 1`, wherever the tag is |
| Feeds.CacheKey | cmsplugin_rss_import/models.py:367-368 | `rss:feed_` and the printed pk; one key per pk by CacheKeyInjective |
| Feeds.CacheKeyInjective | cmsplugin_rss_import/models.py:367-368 | different plugin ids give different cache keys |
| Feeds.LoadBlock | cmsplugin_rss_import/models.py:382-383 | the load block is a prefix of the template |
| Feeds.HtmlBlock | cmsplugin_rss_import/models.py:385-389 | the body is no longer than the template; which part it is is stated by the lemmas below |
| Feeds.SekizaiBlock | cmsplugin_rss_import/models.py:385-386 | the sekizai block is a suffix of the template |
| Feeds.CachedTemplate | cmsplugin_rss_import/models.py:390-392 | the text written for a non-empty template; see SaveHtmlCustomTemplate and the block lemmas |
| Feeds.SaveHtmlCustomTemplate | cmsplugin_rss_import/models.py:373-392 | nothing for an empty template; otherwise the load block, the cached body with timeout period // 2 and the plugin's key, and the sekizai block, in the source's wrapper text |
| Feeds.BlocksReassemble | cmsplugin_rss_import/models.py:382-389 | with a closed load tag before an addtoblock tag, the three blocks and the two trimmed characters make up the whole template |
| Feeds.NoTagsWholeBody | cmsplugin_rss_import/models.py:382-389 | without either tag, the body is the whole template and the other blocks are empty |
| Feeds.NoLoadSplitAtAddToBlock | cmsplugin_rss_import/models.py:385-387 | without a load tag, the body is what precedes the first addtoblock minus its last character, and the sekizai block is the rest |
| Feeds.LeadingAddToBlockRepeatsTemplate | cmsplugin_rss_import/models.py:385-387 | an addtoblock at index 0 makes the body everything but the last character, and the sekizai block the whole template |
| Feeds.UnclosedLoadTakesSixCharacters | cmsplugin_rss_import/models.py:382-383 | an unclosed last load tag makes the load block the first six characters |
| Feeds.CacheTimeoutAtLeastHalfMinute | cmsplugin_rss_import/models.py:391-392 | for a validated source on a valid interval, the cache timeout is at least 30 seconds |
| Imports.IdsOf | cmsplugin_rss_import/tasks.py:95-97 | exactly the ids of the given rows |
| Imports.Without | cmsplugin_rss_import/tasks.py:95-97 | the rows whose id is not deleted, and no more |
| Imports.WithoutWithout | cmsplugin_rss_import/tasks.py:96-97 | deleting one set of ids after another deletes their union |
| Imports.WithoutUnique | cmsplugin_rss_import/tasks.py:96-97 | deleting keeps ids unique |
| Imports.Saved | cmsplugin_rss_import/tasks.py:102 | saving a row puts it in the table, replacing at most the row with its id, and adds a row only for a new id |
| Imports.SavedUnique | cmsplugin_rss_import/tasks.py:102 | saving keeps ids unique and keeps every row with another id |
| Imports.SameIdSameRow | cmsplugin_rss_import/models.py:289-301 | in a table with unique ids, one id means one row |
| Imports.SavedTwice | cmsplugin_rss_import/tasks.py:101-104 | saving a row twice leaves what the second save wrote |
| Imports.ImportTable.constructor | cmsplugin_rss_import/models.py:289-301 | an empty table, with unique ids and nothing shown |
| Imports.ImportTable.Create | cmsplugin_rss_import/models.py:300-301 | a new row with a fresh id, the source and content, hidden and scheduled, appended; ids stay unique and shown rows stay complete |
| Imports.ImportTable.Delete | cmsplugin_rss_import/tasks.py:97 | removes the row with that id and nothing else |
| Imports.ImportTable.Save | cmsplugin_rss_import/tasks.py:102 | writes the row back; ids stay unique, and shown rows stay complete when the saved row keeps the rule |
| Json.PyIn | cmsplugin_rss_import/models.py:188-195 | `in` tests keys of a dict, elements of a list and substrings of a string (true iff the key occurs somewhere), and raises exactly on a number, bool or null |
| Tasks.Lookup | cmsplugin_rss_import/tasks.py:49 | indexing a dict answers the value or raises KeyError; anything else raises |
| Tasks.Iterate | cmsplugin_rss_import/tasks.py:55 | iterating a list gives its items, a string its characters, and a number raises TypeError |
| Tasks.StoredName | cmsplugin_rss_import/tasks.py:80 | a field is stored under its target-or-source, and raises without a string one |
| Tasks.AttributeEntry | cmsplugin_rss_import/tasks.py:56-57 | one descriptor gives its target-or-source and the element's attribute named by its `source`, and fails otherwise |
| Tasks.AttributesSpecShape | cmsplugin_rss_import/tasks.py:54-57 | the attribute dict builds iff every descriptor can be read; its keys are exactly their target-or-source names |
| Tasks.AttributesLastWins | cmsplugin_rss_import/tasks.py:55-57 | a name holds the attribute of its last descriptor |
| Tasks.AttributeContent | cmsplugin_rss_import/tasks.py:50-57 | under `empty`, a string `attributes` gives that one attribute, a list gives the attribute dict, and a missing `attributes` raises |
| Tasks.ImageUrl | cmsplugin_rss_import/tasks.py:64 | `content[location]`: the dict entry for a string key, or the character at an index, counted from the end when negative |
| Tasks.TypedContent | cmsplugin_rss_import/tasks.py:59-78 | an image url comes out exactly for image fields |
| Tasks.MapField | cmsplugin_rss_import/tasks.py:48-81 | a mapped field is stored under its target-or-source, and gives one image entry, under that name, exactly when it is an image field |
| Tasks.TextFieldStoresText | cmsplugin_rss_import/tasks.py:59-78 | typed fields that are neither image nor date, and untyped fields without `empty`, store the element's text (overriding attribute content); nothing found raises AttributeError |
| Tasks.AttributeFieldStoresAttributes | cmsplugin_rss_import/tasks.py:50-57 | an untyped field under `empty` stores the attribute content, and fails when that does |
| Tasks.ImageFieldEntry | cmsplugin_rss_import/tasks.py:60-70 | an image field's url is the element's text (also stored) without `empty`, and `content[location]` with it |
| Tasks.FieldsFold | cmsplugin_rss_import/tasks.py:48-81 | `item_to_save` and `image_fields` after each descriptor in turn; stated by the FieldsFold lemmas below |
| Tasks.FieldsFoldErrorSticks | cmsplugin_rss_import/tasks.py:48-81 | the first field that raises ends the item |
| Tasks.FieldsFoldShape | cmsplugin_rss_import/tasks.py:48-81 | after the loop every field mapped, the stored names are exactly the fields' names, and the image list has one entry per image field |
| Tasks.FieldsFoldLastWins | cmsplugin_rss_import/tasks.py:80-81 | a name holds the content of the last field stored under it |
| Tasks.MapFieldsShape | cmsplugin_rss_import/tasks.py:48-81 | the same shape facts for the field mapping itself |
| Tasks.MapFields | cmsplugin_rss_import/tasks.py:45-81 | the loop builds the content and image list of the fold, and raises the image flag iff some image entry was listed |
| Tasks.RegexFoldDefined | cmsplugin_rss_import/tasks.py:84-85 | the pattern builds iff every unique name is a stored string key |
| Tasks.RegexFoldConcat | cmsplugin_rss_import/tasks.py:83-86 | the pattern of two lists of names is the concatenation of their patterns, in order |
| Tasks.RegexFoldPrefixFails | cmsplugin_rss_import/tasks.py:84-85 | the first missing unique name ends the item |
| Tasks.Show | cmsplugin_rss_import/tasks.py:85 | `'%s' % value`: the text itself, `None` for no text, `render` for a dict |
| Tasks.UniqueGroup | cmsplugin_rss_import/tasks.py:85-86 | one lookahead group; its text is stated by UniqueGroupLiteral |
| Tasks.UniqueGroupLiteral | cmsplugin_rss_import/tasks.py:85-86 | each group is `(?=.*`, the escaped `"name":"value"` text, and `)`; the escaped part matches exactly that text |
| Tasks.ContentRegex | cmsplugin_rss_import/tasks.py:83-87 | the loop builds the concatenated pattern, raising when a unique name is not stored |
| Tasks.Matching | cmsplugin_rss_import/tasks.py:88 | the imports of this source whose content the pattern matches, and no others |
| Tasks.DedupSurvivors | cmsplugin_rss_import/tasks.py:93-97 | deleting the other matches keeps every row that did not match, and the first match |
| Tasks.DeleteAll | cmsplugin_rss_import/tasks.py:95-97 | the delete loop removes exactly the given rows' ids |
| Tasks.Dedup | cmsplugin_rss_import/tasks.py:88-97 | without a match, one new hidden, scheduled import is created; with matches the first is kept and the others are deleted; ids stay unique and shown rows complete |
| Tasks.MediaOf | cmsplugin_rss_import/tasks.py:127-130 | `multimedia` is read as a dict: empty when missing, the stored dict of attributes with the same keys when a field put one there; only text (or None) there raises |
| Tasks.Fetch | cmsplugin_rss_import/tasks.py:137-155 | the fetched image's id, or None when anything raised; always None for a missing url, on which `urlopen` raises |
| Tasks.SaveImageSpec | cmsplugin_rss_import/tasks.py:120-162 | a field id already in `multimedia` leaves the content as it was, otherwise the fetched id (None on failure) is added to the dict, attribute entries included; other content is untouched; the import becomes complete and shown exactly when `multimedia` holds `item_complete` entries, and is saved only then |
| Tasks.AttributesUnderMultimedia | cmsplugin_rss_import/tasks.py:126-158 | a dict of attributes stored under `multimedia` keeps its entries, gains the image's id beside them (None for a missing url), and counts towards completion |
| Tasks.SaveImage | cmsplugin_rss_import/tasks.py:120-162 | the method computes that outcome and saves the row only when it completes |
| Tasks.SaveImagesFold | cmsplugin_rss_import/tasks.py:103-104 | the image loop raises only when there are images and `multimedia` holds text (or None); any saved row is complete and shown |
| Tasks.SaveImagesErrorSticks | cmsplugin_rss_import/tasks.py:103-104 | an image that raises ends the item |
| Tasks.SaveImages | cmsplugin_rss_import/tasks.py:103-104 | the loop leaves the table as the last completing save left it |
| Tasks.Advance | cmsplugin_rss_import/tasks.py:99-110 | only scheduled imports move; without images they become complete and shown; with images they are saved as processing, then the image loop runs |
| Tasks.NameSetSize | cmsplugin_rss_import/tasks.py:157 | the image fields give as many distinct names as entries iff the names are distinct |
| Tasks.SaveImagesState | cmsplugin_rss_import/tasks.py:127-162 | starting without `multimedia`, it ends keyed by the image names; complete, shown and saved iff their number is the number of image fields |
| Tasks.ImagesCompleteIffDistinct | cmsplugin_rss_import/tasks.py:99-104 | a scheduled import with images ends complete and shown iff the image names are distinct, otherwise it stays in processing |
| Tasks.ItemPlan | cmsplugin_rss_import/tasks.py:45-87 | the content, image entries and pattern of one item before the database is touched, or the first fault; ProcessItem is stated against it |
| Tasks.ProcessItem | cmsplugin_rss_import/tasks.py:45-111 | an item that raises leaves the table as it was; otherwise a new import is created iff no existing one matched |
| Tasks.Ordered | cmsplugin_rss_import/tasks.py:40-41 | items in document order, or reversed with `reverse` |
| Tasks.Run | cmsplugin_rss_import/tasks.py:36-115 | without a wrapper nothing is processed; otherwise the total is the number of items and every item was counted iff none raised; ids stay unique and only complete imports are shown |
| JobStores.DjangoJobStore.constructor | cmsplugin_rss_import/models.py:19-29 | an empty job table |
| JobStores.DjangoJobStore.LookupJob | cmsplugin_rss_import/jobstores.py:11-16 | None for a missing id or a null or empty state; otherwise the restored job, or the restore error |
| JobStores.DjangoJobStore.AddJob | cmsplugin_rss_import/jobstores.py:32-40 | a conflict, and no change, iff the id is taken; otherwise the row is inserted |
| JobStores.DjangoJobStore.UpdateJob | cmsplugin_rss_import/jobstores.py:42-46 | only the row with the job's id changes, and only if it exists |
| JobStores.DjangoJobStore.RemoveJob | cmsplugin_rss_import/jobstores.py:48-51 | the row goes; the lookup error iff there was none |
| JobStores.DjangoJobStore.GetJobs | cmsplugin_rss_import/jobstores.py:65-79 | returns one job per selected row that restores, and exactly those jobs; deletes exactly the selected rows that fail |
| JobStores.DjangoJobStore.GetDueJobs | cmsplugin_rss_import/jobstores.py:18-19 | exactly the jobs restored from rows with a run time not after `now`; the due rows that fail to restore are deleted |
| JobStores.DjangoJobStore.GetNextRunTime | cmsplugin_rss_import/jobstores.py:21-25 | None iff no row has a run time; otherwise the least run time in the table |
| Admin.Updated | cmsplugin_rss_import/admin.py:22-30 | a selected import is shown iff the action shows and it is complete; nothing else changes |
| Admin.ShowInPlugin | cmsplugin_rss_import/admin.py:22-26 | the show action is that update with show; ids stay unique and shown rows complete |
| Admin.HideInPlugin | cmsplugin_rss_import/admin.py:29-30 | the hide action hides every selected import and changes nothing else |
| Admin.Count | cmsplugin_rss_import/admin.py:59-69 | a count never exceeds the number of rows |
| Admin.CountsAddUp | cmsplugin_rss_import/admin.py:59-69 | complete, scheduled and processing counts add up to the total of the source |
| Admin.ActionsKeepCounts | cmsplugin_rss_import/admin.py:22-30 | neither action changes any count |
| Admin.ActionsIdempotent | cmsplugin_rss_import/admin.py:22-30 | running an action twice is running it once |
| Admin.NextProcessScheduled | cmsplugin_rss_import/admin.py:52-57 | the run time of the job with id `url:task`, None when there is none; stated by the two lemmas below |
| Admin.NextProcessScheduledAfterWrite | cmsplugin_rss_import/admin.py:52-57 | after the source's job is written, its run time is shown; writing another source's job leaves it, when tasks hold no colon |
| Admin.NextProcessScheduledAfterRemove | cmsplugin_rss_import/admin.py:52-57 | once the source's job is removed, nothing is shown |
| Decorators.Registry.constructor | cmsplugin_rss_import/decorators.py:2-3 | each `register_task()` makes a fresh, empty registry |
| Decorators.Registry.Register | cmsplugin_rss_import/decorators.py:5-7 | stores the function under its name, overwriting, leaves other names alone, and returns the function itself |
| Decorators.Registered | cmsplugin_rss_import/decorators.py:6 | registering a list of functions gives exactly their names as keys |
| Decorators.RegisteredLastWins | cmsplugin_rss_import/decorators.py:6 | a name holds the last function registered under it |
| Decorators.RegisterAll | cmsplugin_rss_import/decorators.py:5-9 | registering one by one builds exactly that registry |
| Widgets.PublicNames | cmsplugin_rss_import/widgets.py:12-13 | the registered names not starting with `_`; see ChoicesAreTasks |
| Widgets.Pairs | cmsplugin_rss_import/widgets.py:14 | `zip(tasks, tasks)`: the pair (n, n) for each name, in order |
| Widgets.TasksAsChoices | cmsplugin_rss_import/widgets.py:11-14 | the empty choice first, then one choice per registered name not starting with `_` |
| Widgets.ChoicesAreTasks | cmsplugin_rss_import/widgets.py:12-14 | every later choice is (n, n) for a public registered name, and every such name has a choice |
| Widgets.ChoicesSorted | cmsplugin_rss_import/widgets.py:12 | the names come in strictly increasing order |
| Widgets.TaskSelectWidget.constructor | cmsplugin_rss_import/widgets.py:9 | nothing is memoised yet |
| Widgets.TaskSelectWidget.Choices | cmsplugin_rss_import/widgets.py:16-20 | the first read computes the choices and memoises them; later reads return the memoised value |
| Widgets.TaskSelectWidget.SetChoices | cmsplugin_rss_import/widgets.py:22-26 | assigning choices leaves the memoised value as it was |
| Text.Find | cmsplugin_rss_import/models.py:353 | the least index from `start` at which the pattern occurs, or -1 when there is none |
| Text.RFind | cmsplugin_rss_import/models.py:355 | the greatest index at which the pattern occurs, or -1 when there is none |
| Text.Slice | cmsplugin_rss_import/models.py:387 | Python's slice: never longer than the string; `s[i:j]` with in-range bounds is the plain slice, `s[i:-1]` drops the last character, and `j <= i` gives the empty string |
| Text.IntToStringRoundTrip | cmsplugin_rss_import/models.py:368 | the printed integer is a valid numeral that reads back to that integer |
| Text.IntToStringInjective | cmsplugin_rss_import/models.py:368 | different integers print differently |
| Text.Sorted | cmsplugin_rss_import/widgets.py:12 | every element of the set once, in strictly increasing order |
| Text.ReEscapeLiteral | cmsplugin_rss_import/tasks.py:86 | the escaped text, read as a pattern, matches exactly the original text |
| Text.ReEscapeInjective | cmsplugin_rss_import/tasks.py:86 | different texts escape differently |

`Json.TargetOrSource` (`field['target'] if 'target' in field else field['source']`, tasks.py:80) and
`Tasks.ElementText` (`.text` on what `find` returned, tasks.py:66) are definitional helpers: their
contracts only restate the Python expression they stand for, and the rows for `Tasks.StoredName`,
`Tasks.TextFieldStoresText` and `Sources.FieldPass` state what follows from them.

## Left out

- Fetching the feed over HTTP, parsing it with lxml, parsing dates with dateutil and formatting them with `strftime`. These are I/O and foreign libraries. The parsed items come in as a sequence of maps from path to element; the date parser is the `parseDate` parameter (None meaning it raised).
- Image download, filer `Folder`/`Image` creation and temporary files. `download` is a deterministic parameter from the url to the new image id, or None when any of it raised. `Tasks.Fetch` does not consult it for a missing url, which always records None.
- Threading in `process_rss` and the thread start, `connection.close`, and the `warnings.warn` messages. These are concurrency, database plumbing and logging.
- The database regex match of the dedup pattern against the stored JSON, and the database order of the matches. `matches` is a parameter, and the matching rows keep table order.
- Tasks.Matching: the source filter compares source ids only.
- `RSSSource.save`: scheduler removal and addition, and resetting `last_process_date`. It is a wrapper over APScheduler. The job id it builds is modelled in `Sources.JobId`.
- `create_trigger` on both schedule models, `CrontabSchedule.clean` (it only builds a `CronTrigger`) and `RSSFeed.clean` (it only compiles a Django template). All are foreign calls.
- The `field["type"] is "image"` test. It is an object-identity test whose result depends on string interning, so it is the `identity` parameter of the validator.
- `remove_all_jobs`, which calls a manager method that does not exist, plus `get_all_jobs` and `_fix_paused_jobs_sorting`. They are foreign to the table logic.
- Rebuilding APScheduler `Job` objects. `restore` stands for `__setstate__`. The `jobstore` key written into the state and the scheduler back-references are not modelled.
- JobStores.DjangoJobStore.GetJobs: states the returned jobs as a set with its size, not in database order. Two rows that restore to the same job count once in the membership clause.
- JobStores.DjangoJobStore.GetNextRunTime: run times are integers rather than datetimes.
- The clock. `now` is a parameter of the validator; the timestamp of an import, `last_process_date` and `last_import_date` are left out.
- Tasks.Run: when `wrapper` is missing, the source raises a NameError at the final message because `items_counter` was never set. The model reports a fault with a count of 0 and no change to the table.
- Tasks.Run: states the count and the invariants, not the per-item table contents, which depend on the foreign `matches` and `download`.
- Tasks.ProcessItem: the dedup, status and image steps are stated in `Tasks.Dedup` and `Tasks.Advance`. This method only states the create-iff-no-match part for the table.
- Tasks.SaveImageSpec: text under `multimedia` is a TypeError. For a text that contains the field id, Python skips the assignment, raises nothing and compares the text's length with `item_complete`; that case is not modelled. A dict of attributes there is modelled.
- Tasks.Iterate: iterating a non-empty dict, which Python does over its keys, is modelled as a TypeError; in the attribute loop those keys would then raise when indexed anyway.
- Tasks.MapField: a `source` path or a stored name that is not a string raises TypeError in the model; lxml's own checks on paths are not modelled.
- Tasks.StoredName: a `target` (or `source`) that is a number, bool or null is a valid dict key in Python, but raises TypeError in the model, because content is keyed by strings.
- Tasks.AttributeEntry: the same for the name an attribute descriptor is stored under: a non-string name raises TypeError in the model.
- Sources.DuplicateCheck: `qs[0]` is taken in table order. `RSSSource` declares no ordering, so which matching row the database answers first is not fixed; the model fixes it.
- Sources.UniqueCheck: compares JSON values structurally. Python's `in` uses `==`, which makes `True == 1` and `False == 0`, so a unique name `1` matches a field target `true` in the source but not in the model.
- Tasks.Show: how a non-string value is printed inside the pattern is the `render` parameter; None prints as `None`.
- Json: numbers are integers; floating-point JSON values are not modelled.
- `RSSFeed.get_html_template`, `get_custom_html_path`, `get_feed` and the file write of `save_html_custom_template`. These are filesystem and database access; only the text written is modelled.
- `apps.py`, `signals.py`, `cms_plugins.py`, `templatetags/rss_feed_tags.py`, `fields.py`, `forms.py` and the migration. These are startup, cleanup, plugin registration and schema, with no logic of their own to prove.
- Text.IntToString: Python 2 `str` of a `long` is not distinguished from that of an `int`.
- Widgets.TasksAsChoices: reads the registry's names as a set. `sorted` orders by code point, which is what `Text.LessEq` does.
