/** The content script on event pages: it scrapes the title, date and
    location of the event from the page, cleans them up, and keeps the last
    scrape with a title for the popup to ask for. */
module Content {

  import opened Json
  import opened Text

  /** The location block `.location-info__address`: its whole text, and the
      text of the nested `.location-info__address-text` when there is one. */
  datatype LocationBox = LocationBox(fullText: string, venueText: Option<string>)

  /** What the scraper can see of a page: its URL; the text of the first
      element each selector matches (no entry when none matches); the
      location block, if any; and the `application/ld+json` script: None
      when there is none, Some(None) when its text is not JSON. */
  datatype Page = Page(url: string, text: map<string, string>, box: Option<LocationBox>,
                       ldJson: Option<Option<JValue>>)

  /** `eventData`; None is `undefined`, which `x || data.name` can leave
      behind when the structured data lacks the member. */
  datatype EventData = EventData(title: Option<JValue>, date: Option<JValue>,
                                 location: Option<JValue>, url: string)

  const TitleSelectors: seq<string> := [
    "h1[data-testid=\"event-title\"]", "h1.event-title", ".event-hero__title h1",
    ".listing-hero-title", "h1", "[class*=\"title\"]"]

  /** The first entry names no class (its dot is missing), so it only ever
      matches an element of that tag name. */
  const DateSelectors: seq<string> := [
    "location-info__address-text", "[data-testid=\"event-date\"]", ".event-details__date",
    ".event-hero__date", ".listing-hero-date", "[class*=\"date\"]", "time"]

  const LocationSelectors: seq<string> := [
    ".event-details__location", ".event-hero__location", ".listing-hero-location",
    "[class*=\"location\"]", "[class*=\"venue\"]"]

  // ---------------------------------------------------------------------
  // the selector chains (lines 30-55, 93-111)

  /** The selector matches an element whose trimmed text is not empty. */
  predicate HasText(text: map<string, string>, selector: string)
  {
    selector in text && Trim(text[selector]) != []
  }

  /** The position of the first selector in the list with text. */
  function FirstIndex(text: map<string, string>, selectors: seq<string>): (r: Option<nat>)
    ensures r.Some? ==> r.value < |selectors| && HasText(text, selectors[r.value])
    decreases |selectors|
  {
    if selectors == [] then None
    else if HasText(text, selectors[0]) then Some(0)
    else
      var rest := FirstIndex(text, selectors[1..]);
      if rest.Some? then Some(rest.value + 1) else None
  }

  /** The chain stops at the first selector with text, and finds nothing
      only when no selector has text. */
  lemma {:induction false} FirstIndexFirst(text: map<string, string>, selectors: seq<string>)
    ensures FirstIndex(text, selectors).Some? ==>
      forall j :: 0 <= j < FirstIndex(text, selectors).value ==> !HasText(text, selectors[j])
    ensures FirstIndex(text, selectors).None? ==>
      forall j :: 0 <= j < |selectors| ==> !HasText(text, selectors[j])
    decreases |selectors|
  {
    if selectors != [] && !HasText(text, selectors[0]) {
      FirstIndexFirst(text, selectors[1..]);
      assert forall j :: 1 <= j < |selectors| ==> selectors[1..][j - 1] == selectors[j];
    }
  }

  /** The trimmed text of the first selector with text. */
  function FirstText(text: map<string, string>, selectors: seq<string>): (r: Option<string>)
  {
    var i := FirstIndex(text, selectors);
    if i.Some? then Some(Trim(text[selectors[i.value]])) else None
  }

  /** One selector chain: the `for ... break` loop over `selectors`. */
  method FirstMatch(text: map<string, string>, selectors: seq<string>) returns (found: Option<string>)
    ensures found == FirstText(text, selectors)
  {
    found := None;
    var i := 0;
    while i < |selectors|
      invariant 0 <= i <= |selectors|
      invariant FirstIndex(text, selectors) == OffsetBy(FirstIndex(text, selectors[i..]), i)
    {
      var selector := selectors[i];
      if selector in text && Trim(text[selector]) != [] {
        found := Some(Trim(text[selector]));
        return;
      }
      assert selectors[i..][1..] == selectors[i + 1..];
      i := i + 1;
    }
  }

  function OffsetBy(r: Option<nat>, k: nat): Option<nat>
  {
    if r.Some? then Some(r.value + k) else None
  }

  // ---------------------------------------------------------------------
  // the location block (lines 57-90)

  const Directions := "Get directions"

  /** Where `/Get directions.*$/` matches, searching from `from`: the first
      "Get directions" with no line terminator after it, since `.` stops at
      line terminators and `$` is the end of the text. */
  function DirectionsFrom(s: string, from: nat): (r: Option<nat>)
    ensures r.Some? ==> from <= r.value && OccursAt(s, Directions, r.value)
    ensures r.Some? ==> forall k :: r.value + |Directions| <= k < |s| ==> !IsLineTerminator(s[k])
    decreases |s| - from
  {
    if from + |Directions| > |s| then None
    else if OccursAt(s, Directions, from) && TailFree(s, from + |Directions|) then Some(from)
    else DirectionsFrom(s, from + 1)
  }

  predicate TailFree(s: string, k: nat)
  {
    forall j :: k <= j < |s| ==> !IsLineTerminator(s[j])
  }

  /** No earlier position matches. */
  lemma {:induction false} DirectionsFirst(s: string, from: nat)
    ensures forall i :: from <= i && (DirectionsFrom(s, from).None? || i < DirectionsFrom(s, from).value) ==>
      !(OccursAt(s, Directions, i) && TailFree(s, i + |Directions|))
    decreases |s| - from
  {
    if from + |Directions| <= |s| && !(OccursAt(s, Directions, from) && TailFree(s, from + |Directions|)) {
      DirectionsFirst(s, from + 1);
    }
  }

  /** `.replace(/Get directions.*$/, '')`: cut the text at the match. */
  function DropDirections(s: string): (r: string)
    ensures DirectionsFrom(s, 0).None? ==> r == s
    ensures DirectionsFrom(s, 0).Some? ==> r == s[..DirectionsFrom(s, 0).value]
  {
    var i := DirectionsFrom(s, 0);
    if i.Some? then s[..i.value] else s
  }

  /** The venue: the nested element's trimmed text, or empty. */
  function Venue(box: LocationBox): string
  {
    if box.venueText.Some? then Trim(box.venueText.value) else []
  }

  /** The address: the block's trimmed text with the first occurrence of
      the venue removed and the directions tail cut, trimmed; computed only
      when the venue is not empty and occurs in the text. */
  function Address(box: LocationBox): (a: string)
    ensures a != [] ==> Venue(box) != [] && Contains(Trim(box.fullText), Venue(box))
  {
    var venue := Venue(box);
    var full := Trim(box.fullText);
    if venue != [] && Contains(full, venue) then Trim(DropDirections(ReplaceFirst(full, venue, [])))
    else []
  }

  /** The location the block yields, if any. */
  function Composed(box: Option<LocationBox>): (r: Option<string>)
    ensures r.Some? ==> r.value != []
    ensures box.None? ==> r.None?
    ensures box.Some? ==>
      if Venue(box.value) != [] && Address(box.value) != [] then
        r == Some(Venue(box.value) + ", " + Address(box.value))
      else if Venue(box.value) != [] then r == Some(Venue(box.value))
      else r.None?
  {
    if box.None? then None
    else
      var venue := Venue(box.value);
      var address := Address(box.value);
      if venue != [] && address != [] then Some(venue + ", " + address)
      else if venue != [] then Some(venue)
      else if address != [] then Some(address)
      else None
  }

  // ---------------------------------------------------------------------
  // structured data and clean-up (lines 114-142)

  /** A string found by a selector chain, or the initial `null`. */
  function Found(s: Option<string>): Option<JValue>
  {
    if s.Some? then Some(JStr(s.value)) else Some(JNull)
  }

  /** The fields once the selector chains and the location block are done. */
  function Scraped(page: Page): (d: EventData)
  {
    var title := Found(FirstText(page.text, TitleSelectors));
    var date := Found(FirstText(page.text, DateSelectors));
    var composed := Composed(page.box);
    var location := if composed.Some? then Some(JStr(composed.value))
                    else Found(FirstText(page.text, LocationSelectors));
    EventData(title, date, location, page.url)
  }

  /** The structured data is a schema.org Event. */
  predicate IsEvent(data: JValue)
  {
    Get(data, "@type") == Some(JStr("Event"))
  }

  /** Lines 115-131: when a field is missing and the page carries an Event
      in its structured data, the missing fields are taken from it. */
  function Filled(d: EventData, ld: Option<Option<JValue>>): (r: EventData)
    ensures r.url == d.url
    ensures Present(d.title) ==> r.title == d.title
    ensures Present(d.date) ==> r.date == d.date
    ensures Present(d.location) ==> r.location == d.location
    ensures ld.None? || ld.value.None? || !IsEvent(ld.value.value) ==> r == d
    ensures ld.Some? && ld.value.Some? && IsEvent(ld.value.value) ==>
      var data := ld.value.value;
      var place := Get(data, "location");
      && (!Present(d.title) ==> r.title == Get(data, "name"))
      && (!Present(d.date) ==> r.date == Or(Get(data, "startDate"), Get(data, "doorTime")))
      && (!Present(d.location) ==>
            r.location == Or(GetOpt(place, "name"), GetOpt(GetOpt(place, "address"), "addressLocality")))
  {
    if Present(d.title) && Present(d.date) && Present(d.location) then d
    else if ld.None? || ld.value.None? || !IsEvent(ld.value.value) then d
    else
      var data := ld.value.value;
      var place := Get(data, "location");
      EventData(
        Or(d.title, Get(data, "name")),
        Or(d.date, Or(Get(data, "startDate"), Get(data, "doorTime"))),
        if Present(d.location) then d.location
        else Or(d.location, Or(GetOpt(place, "name"), GetOpt(GetOpt(place, "address"), "addressLocality"))),
        d.url)
  }

  /** `if (f) f = f.replace(/\s+/g, ' ').trim()`: None when a truthy value
      that is not a string makes `replace` throw. */
  function CleanField(f: Option<JValue>): (r: Option<Option<JValue>>)
    ensures !Present(f) ==> r == Some(f)
    ensures Present(f) && f.value.JStr? ==> r == Some(Some(JStr(Clean(f.value.s))))
    ensures Present(f) && !f.value.JStr? ==> r.None?
  {
    if !Present(f) then Some(f)
    else if f.value.JStr? then Some(Some(JStr(Clean(f.value.s))))
    else None
  }

  /** `scrapeEventDetails`: the event data, or None when it throws. */
  function Scrape(page: Page): (r: Option<EventData>)
    ensures r.Some? ==> r.value.url == page.url
  {
    var d := Filled(Scraped(page), page.ldJson);
    var title := CleanField(d.title);
    var date := CleanField(d.date);
    var location := CleanField(d.location);
    if title.None? || date.None? || location.None? then None
    else Some(EventData(title.value, date.value, location.value, d.url))
  }

  /** Lines 10-146, field by field as the handler fills `eventData`. */
  method ScrapeEventDetails(page: Page) returns (r: Option<EventData>)
    ensures r == Scrape(page)
  {
    var title := FirstMatch(page.text, TitleSelectors);
    var date := FirstMatch(page.text, DateSelectors);
    var eventData := EventData(Found(title), Found(date), Some(JNull), page.url);
    if page.box.Some? {
      var location := Composed(page.box);
      if location.Some? {
        eventData := eventData.(location := Some(JStr(location.value)));
      }
    }
    if !Present(eventData.location) {
      var location := FirstMatch(page.text, LocationSelectors);
      if location.Some? {
        eventData := eventData.(location := Some(JStr(location.value)));
      }
    }
    assert eventData == Scraped(page);
    eventData := Filled(eventData, page.ldJson);
    var t := CleanField(eventData.title);
    var d := CleanField(eventData.date);
    var l := CleanField(eventData.location);
    if t.None? || d.None? || l.None? {
      return None;
    }
    return Some(EventData(t.value, d.value, l.value, eventData.url));
  }

  /** A title (or date) found on the page is the one reported, cleaned;
      the structured data never replaces it. */
  lemma SelectorsWin(page: Page)
    requires Scrape(page).Some?
    ensures FirstText(page.text, TitleSelectors).Some? ==>
      Scrape(page).value.title == Some(JStr(Clean(FirstText(page.text, TitleSelectors).value)))
    ensures FirstText(page.text, DateSelectors).Some? ==>
      Scrape(page).value.date == Some(JStr(Clean(FirstText(page.text, DateSelectors).value)))
  {
    var d := Scraped(page);
    var f := Filled(d, page.ldJson);
    assert Scrape(page).value.title == CleanField(f.title).value;
    assert Scrape(page).value.date == CleanField(f.date).value;
    var title := FirstText(page.text, TitleSelectors);
    if title.Some? {
      FoundPresent(page.text, TitleSelectors);
      assert d.title == Some(JStr(title.value));
      assert f.title == d.title;
    }
    var date := FirstText(page.text, DateSelectors);
    if date.Some? {
      FoundPresent(page.text, DateSelectors);
      assert d.date == Some(JStr(date.value));
      assert f.date == d.date;
    }
  }

  lemma FoundPresent(text: map<string, string>, selectors: seq<string>)
    ensures FirstText(text, selectors).Some? ==> FirstText(text, selectors).value != []
  {
  }

  /** A location composed from the location block is the one reported: the
      fallback selectors and the structured data are not consulted. */
  lemma BlockLocationWins(page: Page)
    requires Scrape(page).Some? && Composed(page.box).Some?
    ensures Scrape(page).value.location == Some(JStr(Clean(Composed(page.box).value)))
  {
    var d := Scraped(page);
    assert d.location == Some(JStr(Composed(page.box).value));
    var f := Filled(d, page.ldJson);
    assert f.location == d.location;
    assert Scrape(page).value.location == CleanField(f.location).value;
  }

  /** Without a composed location, the fallback chain supplies it when one
      of its selectors has text. */
  lemma FallbackLocation(page: Page)
    requires Scrape(page).Some? && Composed(page.box).None?
    requires FirstText(page.text, LocationSelectors).Some?
    ensures Scrape(page).value.location == Some(JStr(Clean(FirstText(page.text, LocationSelectors).value)))
  {
    FoundPresent(page.text, LocationSelectors);
  }

  /** With no title on the page, an Event's string `name` becomes the
      title. */
  lemma StructuredTitle(page: Page, data: JValue, name: string)
    requires FirstText(page.text, TitleSelectors).None?
    requires page.ldJson == Some(Some(data)) && IsEvent(data) && Get(data, "name") == Some(JStr(name))
    requires Scrape(page).Some?
    ensures Scrape(page).value.title == (if name == [] then Some(JStr(name)) else Some(JStr(Clean(name))))
  {
    var d := Scraped(page);
    assert d.title == Some(JNull);
    var f := Filled(d, page.ldJson);
    assert f.title == Some(JStr(name));
    assert Scrape(page).value.title == CleanField(f.title).value;
  }

  /** Every field reported is absent, falsy, or a cleaned string that a
      second clean-up leaves alone. */
  lemma ScrapeClean(page: Page)
    requires Scrape(page).Some?
    ensures var d := Scrape(page).value;
      && (Present(d.title) ==> d.title.value.JStr? && Clean(d.title.value.s) == d.title.value.s)
      && (Present(d.date) ==> d.date.value.JStr? && Clean(d.date.value.s) == d.date.value.s)
      && (Present(d.location) ==> d.location.value.JStr? && Clean(d.location.value.s) == d.location.value.s)
  {
    var f := Filled(Scraped(page), page.ldJson);
    if Present(f.title) { CleanIdempotent(f.title.value.s); }
    if Present(f.date) { CleanIdempotent(f.date.value.s); }
    if Present(f.location) { CleanIdempotent(f.location.value.s); }
  }

  // ---------------------------------------------------------------------
  // the page check and the cache (lines 148-195)

  /** `isEventPage`. */
  predicate IsEventPage(url: string)
  {
    Contains(url, "/e/") || Contains(url, "/events/")
  }

  /** `JSON.stringify(eventData)`: the members in their fixed order, the
      undefined ones dropped. */
  function EventJson(d: EventData): JValue
  {
    ObjOf([("title", d.title), ("date", d.date), ("location", d.location), ("url", Some(JStr(d.url)))])
  }

  /** The cache after `performScraping` on `page`. */
  function AfterScraping(last: Option<EventData>, page: Page): Option<EventData>
  {
    if !IsEventPage(page.url) then last
    else
      var d := Scrape(page);
      if d.None? then last
      else if last.Some? && EventJson(d.value) == EventJson(last.value) then last
      else if Present(d.value.title) then d
      else last
  }

  /** The cache changes only on an event page, and only to a fresh scrape
      with a title that differs from the cached one. */
  lemma ScrapingCaches(last: Option<EventData>, page: Page)
    ensures var r := AfterScraping(last, page);
      r != last ==>
        && IsEventPage(page.url) && r == Scrape(page) && Present(r.value.title)
        && (last.Some? ==> EventJson(r.value) != EventJson(last.value))
  {
  }

  /** Scraping the same page again leaves the cache as it is. */
  lemma ScrapingSettles(last: Option<EventData>, page: Page)
    ensures AfterScraping(AfterScraping(last, page), page) == AfterScraping(last, page)
  {
  }

  /** The closure variable `lastScrapedData`. */
  class ContentScript {
    var lastScraped: Option<EventData>

    /** Only data with a title is ever cached. */
    predicate Valid()
      reads this
    {
      lastScraped.Some? ==> Present(lastScraped.value.title)
    }

    constructor ()
      ensures Valid() && lastScraped == None
    {
      lastScraped := None;
    }

    /** `cacheEventData`. */
    method CacheEventData(d: EventData)
      requires Valid()
      modifies this
      ensures Valid()
      ensures lastScraped == (if Present(d.title) then Some(d) else old(lastScraped))
    {
      if Present(d.title) {
        lastScraped := Some(d);
      }
    }

    /** `performScraping`; `completed` is false when the scrape throws. */
    method PerformScraping(page: Page) returns (completed: bool)
      requires Valid()
      modifies this
      ensures Valid()
      ensures lastScraped == AfterScraping(old(lastScraped), page)
      ensures completed <==> !IsEventPage(page.url) || Scrape(page).Some?
    {
      if !IsEventPage(page.url) {
        return true;
      }
      var d := ScrapeEventDetails(page);
      if d.None? {
        return false;
      }
      if lastScraped.None? || EventJson(d.value) != EventJson(lastScraped.value) {
        CacheEventData(d.value);
      }
      return true;
    }

    /** The `getEventData` message: the cached data when it has a title,
        otherwise a fresh scrape (None when it throws and no answer is
        sent); the cache is left alone. */
    method GetEventData(page: Page) returns (r: Option<EventData>)
      requires Valid()
      ensures r == (if lastScraped.Some? then lastScraped else Scrape(page))
    {
      var eventData := lastScraped;
      if eventData.None? || !Present(eventData.value.title) {
        eventData := ScrapeEventDetails(page);
      }
      return eventData;
    }
  }
}
