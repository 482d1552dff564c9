/** The page plugin that renders a source's latest imports
    (cmsplugin_rss_import/models.py, class RSSFeed), reduced to the part that is string
    work: locating template tags in the custom HTML template and building
    the cached copy of that template. */
module Feeds {
  import opened Wrappers
  import Text
  import Sources
  import Schedules

  datatype RSSFeed = RSSFeed(pk: int, source: Sources.RSSSource, amountToRender: nat, htmlTemplate: string)

  /** An opening `{% tag` at index `k`. */
  predicate TagAt(html: string, tag: string, k: int) {
    Text.OccursAt(html, "{% " + tag, k)
  }

  /** `_search_tag_end_html`: the index of the first (or, with `last`, the
      last) `{% tag`, or -1 when there is none. With `end`, the index just
      past the first `%}` from there on; when no `%}` follows, the code adds
      the tag's length to the -1 that `find` returned. */
  function SearchTagEnd(html: string, tag: string, last: bool, end: bool): (r: int)
    ensures r == -1 <==> forall k :: !TagAt(html, tag, k)
    ensures r <= |html|
    ensures !end && !last && r != -1 ==> TagAt(html, tag, r) && forall k :: k < r ==> !TagAt(html, tag, k)
    ensures !end && last && r != -1 ==> TagAt(html, tag, r) && forall k :: r < k ==> !TagAt(html, tag, k)
  {
    var tagFind := "{% " + tag;
    var tagClose := "%}";
    var tagIndex := if !last then Text.Find(html, tagFind, 0) else Text.RFind(html, tagFind);
    assert tagIndex != -1 ==> TagAt(html, tag, tagIndex);
    if tagIndex != -1 && end then
      var endIndex := Text.Find(html, tagClose, tagIndex);
      if endIndex != -1 then endIndex + |tagClose| else endIndex + |tagFind|
    else tagIndex
  }

  /** The chosen `{% tag` (first, or last with `last`) at `t`, closed by a
      first `%}` at `e`: the search with `end` answers `e + 2`. */
  lemma SearchTagEndClosed(html: string, tag: string, last: bool, t: nat, e: nat)
    requires TagAt(html, tag, t)
    requires !last ==> forall k :: k < t ==> !TagAt(html, tag, k)
    requires last ==> forall k :: t < k ==> !TagAt(html, tag, k)
    requires t <= e && Text.OccursAt(html, "%}", e) && forall k :: t <= k < e ==> !Text.OccursAt(html, "%}", k)
    ensures SearchTagEnd(html, tag, last, true) == e + 2
  {
    var tagIndex := if !last then Text.Find(html, "{% " + tag, 0) else Text.RFind(html, "{% " + tag);
    assert tagIndex != -1 && TagAt(html, tag, tagIndex);
    assert tagIndex == t;
    var endIndex := Text.Find(html, "%}", t);
    assert endIndex == e;
  }

  /** The chosen `{% tag` is never closed: the search with `end` answers
      `len('{% ' + tag) - 1` wherever the tag is. */
  lemma SearchTagEndUnclosed(html: string, tag: string, last: bool, t: nat)
    requires TagAt(html, tag, t)
    requires !last ==> forall k :: k < t ==> !TagAt(html, tag, k)
    requires last ==> forall k :: t < k ==> !TagAt(html, tag, k)
    requires forall k :: t <= k ==> !Text.OccursAt(html, "%}", k)
    ensures SearchTagEnd(html, tag, last, true) == |tag| + 2
  {
    var tagIndex := if !last then Text.Find(html, "{% " + tag, 0) else Text.RFind(html, "{% " + tag);
    assert tagIndex != -1 && TagAt(html, tag, tagIndex);
    assert tagIndex == t;
  }

  /** `get_cache_key` */
  function CacheKey(pk: int): string {
    "rss:feed_" + Text.IntToString(pk)
  }

  /** Each plugin instance caches under its own key. */
  lemma CacheKeyInjective(p: int, q: int)
    requires CacheKey(p) == CacheKey(q)
    ensures p == q
  {
    var a, b := Text.IntToString(p), Text.IntToString(q);
    assert CacheKey(p)[9..] == a && CacheKey(q)[9..] == b;
    Text.IntToStringInjective(p, q);
  }

  // ---------------------------------------------------------------------------
  // The three blocks of the template and the cached copy
  // ---------------------------------------------------------------------------

  /** Where the load tags end: just past the last `{% load ... %}`. */
  function LastLoad(html: string): int { SearchTagEnd(html, "load", true, true) }

  /** Where the sekizai tags start: the first `{% addtoblock`. */
  function FirstAddToBlock(html: string): int { SearchTagEnd(html, "addtoblock", false, false) }

  /** Everything up to the end of the last load tag, or nothing. */
  function LoadBlock(html: string): (r: string)
    ensures r <= html
  {
    var l := LastLoad(html);
    if l != -1 then Text.SliceTo(html, l) else ""
  }

  /** The body between the blocks, one character trimmed on each side,
      with Python's reading of the bounds (-1 counts from the end). */
  function HtmlBlock(html: string): (r: string)
    ensures |r| <= |html|
  {
    var l, a := LastLoad(html), FirstAddToBlock(html);
    if a != -1 then Text.Slice(html, l + 1, a - 1) else Text.SliceFrom(html, l + 1)
  }

  /** Everything from the first addtoblock tag on, or nothing. */
  function SekizaiBlock(html: string): (r: string)
    ensures |r| <= |html| && r == html[|html| - |r|..]
  {
    var a := FirstAddToBlock(html);
    if a != -1 then Text.SliceFrom(html, a) else ""
  }

  /** The text `save_html_custom_template` writes: the load block, then the
      body inside a `{% cache %}` block keyed by the plugin and kept for half
      the source's period, then the sekizai block. Python 2 divides the
      integers with floor division, which for the divisor 2 is Dafny's `/`. */
  function CachedTemplate(html: string, pk: int, period: int): string {
    "{% load cache %}\n" + LoadBlock(html)
    + "\n{% cache " + Text.IntToString(period / 2) + " " + CacheKey(pk) + " %}\n"
    + HtmlBlock(html)
    + "\n{% endcache %}\n"
    + SekizaiBlock(html)
    + "\n            "
  }

  /** `save_html_custom_template` without the file write: nothing for an
      empty template, otherwise the three blocks, worked out one after the
      other, in their cached wrapper. */
  method SaveHtmlCustomTemplate(feed: RSSFeed) returns (written: Option<string>)
    ensures feed.htmlTemplate == [] ==> written == None
    ensures feed.htmlTemplate != [] ==>
      written == Some(CachedTemplate(feed.htmlTemplate, feed.pk, Sources.SourcePeriodInSeconds(feed.source)))
  {
    var html := feed.htmlTemplate;
    if html == [] { return None; }
    var lastLoad := SearchTagEnd(html, "load", true, true);
    var firstAddToBlock := SearchTagEnd(html, "addtoblock", false, false);

    var loadBlock := "";
    var htmlBlock := "";
    var sekizaiBlock := "";

    if lastLoad != -1 {
      loadBlock := Text.SliceTo(html, lastLoad);
    }
    if firstAddToBlock != -1 {
      sekizaiBlock := Text.SliceFrom(html, firstAddToBlock);
      htmlBlock := Text.Slice(html, lastLoad + 1, firstAddToBlock - 1);
    } else {
      htmlBlock := Text.SliceFrom(html, lastLoad + 1);
    }
    assert loadBlock == LoadBlock(html) && htmlBlock == HtmlBlock(html) && sekizaiBlock == SekizaiBlock(html);
    var time := Sources.SourcePeriodInSeconds(feed.source) / 2;
    var text := "{% load cache %}\n" + loadBlock + "\n{% cache " + Text.IntToString(time) + " " + CacheKey(feed.pk) + " %}\n"
      + htmlBlock + "\n{% endcache %}\n" + sekizaiBlock + "\n            ";
    return Some(text);
  }

  /** With a closed load tag ending at `l` and an addtoblock tag at `a` further
      on, the three blocks and the two characters trimmed around the body
      (normally line breaks) make up the whole template: nothing is lost or
      repeated. */
  lemma BlocksReassemble(html: string)
    requires var l, a := LastLoad(html), FirstAddToBlock(html);
      0 <= l && a != -1 && l + 1 <= a - 1
    ensures var l, a := LastLoad(html), FirstAddToBlock(html);
      LoadBlock(html) + [html[l]] + HtmlBlock(html) + [html[a - 1]] + SekizaiBlock(html) == html
  {
    var l, a := LastLoad(html), FirstAddToBlock(html);
    SlicesBetween(html, l, a);
    assert LoadBlock(html) == html[..l];
    assert HtmlBlock(html) == html[l + 1..a - 1];
    assert SekizaiBlock(html) == html[a..];
    Cut(html, l, a);
  }

  /** The three slices the blocks take, for bounds inside the string. */
  lemma SlicesBetween(s: string, l: int, a: int)
    requires 0 <= l && l + 1 <= a - 1 && a <= |s|
    ensures Text.SliceTo(s, l) == s[..l]
    ensures Text.Slice(s, l + 1, a - 1) == s[l + 1..a - 1]
    ensures Text.SliceFrom(s, a) == s[a..]
  {
  }

  /** A string is its prefix before `l`, the character at `l`, the part up
      to `a - 1`, the character there and the rest. */
  lemma Cut(s: string, l: nat, a: nat)
    requires l + 1 <= a - 1 && a <= |s|
    ensures s == s[..l] + [s[l]] + s[l + 1..a - 1] + [s[a - 1]] + s[a..]
  {
    assert s[..l] + [s[l]] == s[..l + 1];
    assert s[..l + 1] + s[l + 1..a - 1] == s[..a - 1];
    assert s[..a - 1] + [s[a - 1]] == s[..a];
    assert s[..a] + s[a..] == s;
  }

  /** A template with neither kind of tag is cached whole as the body. */
  lemma NoTagsWholeBody(html: string)
    requires forall k :: !TagAt(html, "load", k) && !TagAt(html, "addtoblock", k)
    ensures LoadBlock(html) == "" && HtmlBlock(html) == html && SekizaiBlock(html) == ""
  {}

  /** Without load tags and with the first addtoblock tag at `a > 0`, the body is
      everything before it bar its last character, and the sekizai block
      the rest. */
  lemma NoLoadSplitAtAddToBlock(html: string)
    requires forall k :: !TagAt(html, "load", k)
    requires FirstAddToBlock(html) > 0
    ensures var a := FirstAddToBlock(html);
      HtmlBlock(html) == html[..a - 1] && SekizaiBlock(html) == html[a..] && LoadBlock(html) == ""
  {}

  /** As written, a template that opens with an addtoblock tag and has no
      load tag is cached nearly twice: `a - 1` is -1, which Python reads as
      "up to the last character", so the body is the whole template but its
      last character, and the sekizai block is the whole template again. */
  lemma LeadingAddToBlockRepeatsTemplate(html: string)
    requires forall k :: !TagAt(html, "load", k)
    requires TagAt(html, "addtoblock", 0)
    ensures HtmlBlock(html) == html[..|html| - 1] && SekizaiBlock(html) == html
  {
    assert FirstAddToBlock(html) == 0;
  }

  /** As written, when the last load tag is never closed the load block is
      the template's first six characters, wherever that tag stands. */
  lemma UnclosedLoadTakesSixCharacters(html: string, t: nat)
    requires TagAt(html, "load", t) && forall k :: t < k ==> !TagAt(html, "load", k)
    requires forall k :: t <= k ==> !Text.OccursAt(html, "%}", k)
    ensures LoadBlock(html) == html[..6]
  {
    SearchTagEndUnclosed(html, "load", true, t);
  }

  /** For a source that passed validation on an offered interval unit, the
      cached fragment is kept at least thirty seconds. */
  lemma CacheTimeoutAtLeastHalfMinute(s: Sources.RSSSource, now: int, rows: seq<Sources.RSSSource>, identity: bool, intervals: seq<Schedules.IntervalSchedule>)
    requires Sources.Clean(s, now, rows, identity) == Pass
    requires s.interval.Some? ==> Schedules.CleanInterval(s.interval.value, intervals) == Pass
    requires s.interval.Some? ==> s.interval.value.period in Schedules.PeriodChoices
    ensures Sources.SourcePeriodInSeconds(s) / 2 >= 30
  {
    Sources.ValidatedPeriodAtLeastOneMinute(s, now, rows, identity, intervals);
  }
}
