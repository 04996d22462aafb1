/**
 * The guestbook's message lists: normalising the entries a remote response
 * carries (`normalizeMessages`), reading the entries kept in local storage
 * (`localLoadMessages`), and what `localSaveMessages` writes there.
 *
 * JSON is not modelled as text. A stored value is either an array of items
 * (what `JSON.stringify` of an array gives) or some other text; an item is
 * `null` or an object whose fields are abstracted: a text field is a string
 * or absent/falsy, a timestamp a number, absent/falsy, or something else.
 */
module Guestbook {
  import opened Optional
  import opened Sanitize

  /** A timestamp field as JavaScript sees it. `Other` is any value that is neither a number nor falsy. */
  datatype Stamp = Absent | Millis(ms: int) | Other

  /** JavaScript truthiness: absent and 0 are falsy. */
  predicate Truthy(s: Stamp) {
    s.Other? || (s.Millis? && s.ms != 0)
  }

  /** An entry object as parsed, every field optional. */
  datatype RawEntry = RawEntry(name: Option<string>, message: Option<string>, timestamp: Stamp, ts: Stamp, lang: Option<string>)

  /** An element of a parsed array: `null`, or an object. */
  datatype RawItem = Null | Item(entry: RawEntry)

  /** An entry as the page keeps and shows it. */
  datatype Entry = Entry(name: string, message: string, timestamp: int)

  /** The outcome of code that may throw. */
  datatype Attempt<T> = Done(value: T) | Thrown

  /** A value in local storage: an array written by the page, or any other text. */
  datatype Stored = Text(text: string) | Array(items: seq<RawItem>)

  const MaxEntries: nat := 20

  /** The largest magnitude a JavaScript `Date` can hold, in milliseconds. */
  const MaxTime: int := 8640000000000000

  /** Every entry the page keeps has a name and a message of at most 160 characters. */
  predicate WellFormed(x: Entry) {
    x.name != "" && x.message != "" && |x.message| <= 160
  }

  predicate AllWellFormed(xs: seq<Entry>) {
    forall i :: 0 <= i < |xs| ==> WellFormed(xs[i])
  }

  /** The name shown for an entry without one: Japanese on the Japanese page, English otherwise. */
  function Anonymous(lang: string): (r: string)
    ensures r != ""
  {
    if lang == "ja" then "匿名さん" else "Anonymous"
  }

  /** A cleaned name, or the anonymous name when the cleaned name is empty. */
  function DisplayName(raw: Option<string>, lang: string): (r: string)
    ensures r != ""
    ensures SanitizeName(raw) != "" ==> r == SanitizeName(raw)
    ensures SanitizeName(raw) == "" ==> r == Anonymous(lang)
  {
    var n := SanitizeName(raw);
    if n == "" then Anonymous(lang) else n
  }

  /**
   * The time of a remote entry: its `timestamp`, else its `ts`, else now, the
   * first one that is truthy; now as well when that is not a valid date.
   */
  function NormalizedTime(e: RawEntry, now: int): int {
    var raw := if Truthy(e.timestamp) then e.timestamp else if Truthy(e.ts) then e.ts else Millis(now);
    if raw.Millis? && -MaxTime <= raw.ms <= MaxTime then raw.ms else now
  }

  /** One element of `normalizeMessages`' map: nothing when the message cleans to empty. */
  function NormalizeEntry(e: RawEntry, lang: string, now: int): (r: Option<Entry>)
    ensures r.Some? <==> SanitizeMessage(e.message) != ""
    ensures r.Some? ==> WellFormed(r.value)
    ensures r.Some? ==> r.value == Entry(DisplayName(e.name, lang), SanitizeMessage(e.message), NormalizedTime(e, now))
    ensures r.Some? && SanitizeName(e.name) == "" ==> r.value.name == Anonymous(lang)
  {
    var message := SanitizeMessage(e.message);
    if message == "" then None else Some(Entry(DisplayName(e.name, lang), message, NormalizedTime(e, now)))
  }

  /**
   * A list mapped element by element to zero or more entries and flattened,
   * keeping the order: how each `map(...).filter(...)` chain over a parsed
   * array produces its entries.
   */
  function FlatMap(xs: seq<RawItem>, f: RawItem -> seq<Entry>): seq<Entry>
    decreases |xs|
  {
    if xs == [] then [] else f(xs[0]) + FlatMap(xs[1..], f)
  }

  lemma WellFormedConcat(a: seq<Entry>, b: seq<Entry>)
    requires AllWellFormed(a) && AllWellFormed(b)
    ensures AllWellFormed(a + b)
  {
    assert forall i :: |a| <= i < |a + b| ==> (a + b)[i] == b[i - |a|];
  }

  /** When each element gives at most one well-formed entry, so does the whole list, per element. */
  lemma {:induction false} FlatMapBounds(xs: seq<RawItem>, f: RawItem -> seq<Entry>)
    requires forall x :: |f(x)| <= 1 && AllWellFormed(f(x))
    ensures |FlatMap(xs, f)| <= |xs| && AllWellFormed(FlatMap(xs, f))
    decreases |xs|
  {
    if xs != [] {
      FlatMapBounds(xs[1..], f);
      WellFormedConcat(f(xs[0]), FlatMap(xs[1..], f));
    }
  }

  /** Flattening keeps the order of the list: it distributes over concatenation. */
  lemma {:induction false} FlatMapAppend(a: seq<RawItem>, b: seq<RawItem>, f: RawItem -> seq<Entry>)
    ensures FlatMap(a + b, f) == FlatMap(a, f) + FlatMap(b, f)
    decreases |a|
  {
    if a == [] {
      assert a + b == b;
    } else {
      assert (a + b)[0] == a[0];
      assert (a + b)[1..] == a[1..] + b;
      FlatMapAppend(a[1..], b, f);
    }
  }

  /** A list whose elements give nothing gives nothing. */
  lemma {:induction false} FlatMapNone(xs: seq<RawItem>, f: RawItem -> seq<Entry>)
    requires forall i :: 0 <= i < |xs| ==> f(xs[i]) == []
    ensures FlatMap(xs, f) == []
    decreases |xs|
  {
    if xs != [] {
      assert forall i :: 0 <= i < |xs| - 1 ==> xs[1..][i] == xs[i + 1];
      FlatMapNone(xs[1..], f);
    }
  }

  /** A list whose elements each give exactly one entry gives those entries, in order. */
  lemma {:induction false} FlatMapEach(xs: seq<RawItem>, ys: seq<Entry>, f: RawItem -> seq<Entry>)
    requires |xs| == |ys|
    requires forall i :: 0 <= i < |xs| ==> f(xs[i]) == [ys[i]]
    ensures FlatMap(xs, f) == ys
    decreases |xs|
  {
    if xs != [] {
      assert forall i :: 0 <= i < |xs| - 1 ==> xs[1..][i] == xs[i + 1] && ys[1..][i] == ys[i + 1];
      FlatMapEach(xs[1..], ys[1..], f);
      assert ys == [ys[0]] + ys[1..];
    }
  }

  /** One element's share of `normalizeMessages`' map and `filter(Boolean)`: its entry, or nothing. */
  function NormalizeItem(item: RawItem, lang: string, now: int): (r: seq<Entry>)
    ensures |r| <= 1 && AllWellFormed(r)
    ensures item.Item? && SanitizeMessage(item.entry.message) != "" ==> |r| == 1
  {
    match item
    case Null => []
    case Item(e) =>
      match NormalizeEntry(e, lang, now)
      case None => []
      case Some(x) => [x]
  }

  function Normalizer(lang: string, now: int): RawItem -> seq<Entry> {
    item => NormalizeItem(item, lang, now)
  }

  /** The map and `filter(Boolean)` of `normalizeMessages` over objects (nulls are the caller's concern). */
  function NormalizeAll(items: seq<RawItem>, lang: string, now: int): (r: seq<Entry>)
    ensures |r| <= |items| && AllWellFormed(r)
  {
    FlatMapBounds(items, Normalizer(lang, now));
    FlatMap(items, Normalizer(lang, now))
  }

  /**
   * `normalizeMessages`: no array gives no entries; an array with a `null`
   * element throws (reading a field of `null`); otherwise the normalised
   * entries in their order, at most 20.
   */
  function NormalizeMessages(entries: Option<seq<RawItem>>, lang: string, now: int): (r: Attempt<seq<Entry>>)
    ensures entries.None? ==> r == Done([])
    ensures entries.Some? ==> (r.Thrown? <==> Null in entries.value)
    ensures r.Done? ==> |r.value| <= MaxEntries && AllWellFormed(r.value)
    ensures entries.Some? && r.Done? ==> r.value == Take(NormalizeAll(entries.value, lang, now), MaxEntries)
  {
    match entries
    case None => Done([])
    case Some(items) =>
      if Null in items then Thrown else Done(Take(NormalizeAll(items, lang, now), MaxEntries))
  }

  /** Normalising keeps the input's order: it distributes over concatenation. */
  lemma NormalizeAllAppend(a: seq<RawItem>, b: seq<RawItem>, lang: string, now: int)
    ensures NormalizeAll(a + b, lang, now) == NormalizeAll(a, lang, now) + NormalizeAll(b, lang, now)
  {
    FlatMapAppend(a, b, Normalizer(lang, now));
  }
  /** The entry `normalizeMessages` makes of a remote entry whose message is not empty. */
  function Normalized(e: RawEntry, lang: string, now: int): Entry {
    Entry(DisplayName(e.name, lang), SanitizeMessage(e.message), NormalizedTime(e, now))
  }

  /**
   * Up to 20 remote entries, none `null` and each with a message, normalise
   * to one entry each, in their order: the cleaned name or the anonymous
   * one, the cleaned message and the normalised time.
   */
  lemma NormalizeEach(items: seq<RawItem>, lang: string, now: int)
    requires |items| <= MaxEntries
    requires forall i :: 0 <= i < |items| ==> items[i].Item? && SanitizeMessage(items[i].entry.message) != ""
    ensures NormalizeMessages(Some(items), lang, now)
         == Done(seq(|items|, i requires 0 <= i < |items| => Normalized(items[i].entry, lang, now)))
  {
    var ys := seq(|items|, i requires 0 <= i < |items| => Normalized(items[i].entry, lang, now));
    forall i | 0 <= i < |items|
      ensures Normalizer(lang, now)(items[i]) == [ys[i]]
    {
      var e := items[i].entry;
      assert NormalizeEntry(e, lang, now) == Some(Normalized(e, lang, now));
    }
    FlatMapEach(items, ys, Normalizer(lang, now));
    assert NormalizeAll(items, lang, now) == ys;
    NoNull(items);
    assert Take(ys, MaxEntries) == ys;
  }

  lemma NoNull(items: seq<RawItem>)
    requires forall i :: 0 <= i < |items| ==> items[i].Item?
    ensures Null !in items
  {
  }


  /** An entry's language; one without its own is taken to be the page's. */
  function LangOf(e: RawEntry, lang: string): string {
    if e.lang.None? || e.lang.value == "" then lang else e.lang.value
  }

  /** The time of a stored entry: its timestamp, or now when that is not a non-zero number. */
  function StoredTime(e: RawEntry, now: int): int {
    if e.timestamp.Millis? && e.timestamp.ms != 0 then e.timestamp.ms else now
  }

  /** One element's share of `localLoadMessages`' filter, map and filter: its entry, or nothing. */
  function LoadItem(item: RawItem, lang: string, now: int): (r: seq<Entry>)
    ensures |r| <= 1 && AllWellFormed(r)
    ensures item.Item? && LangOf(item.entry, lang) != lang ==> r == []
  {
    match item
    case Null => []
    case Item(e) =>
      var message := SanitizeMessage(e.message);
      if LangOf(e, lang) != lang || message == "" then []
      else [Entry(DisplayName(e.name, lang), message, StoredTime(e, now))]
  }

  function Loader(lang: string, now: int): RawItem -> seq<Entry> {
    item => LoadItem(item, lang, now)
  }

  /** The filter, map and filter of `localLoadMessages` over objects (nulls are the caller's concern). */
  function LoadAll(items: seq<RawItem>, lang: string, now: int): (r: seq<Entry>)
    ensures |r| <= |items| && AllWellFormed(r)
  {
    FlatMapBounds(items, Loader(lang, now));
    FlatMap(items, Loader(lang, now))
  }

  /**
   * `localLoadMessages`: nothing stored, text that is not an array, or an
   * array with a `null` element (the error is caught) give no entries;
   * otherwise the page language's entries with a message, at most 20.
   */
  function LoadMessages(stored: Option<Stored>, lang: string, now: int): (r: seq<Entry>)
    ensures |r| <= MaxEntries && AllWellFormed(r)
    ensures stored.None? || stored.value.Text? ==> r == []
  {
    match stored
    case None => []
    case Some(Text(_)) => []
    case Some(Array(items)) => if Null in items then [] else Take(LoadAll(items, lang, now), MaxEntries)
  }

  /** Loading keeps the stored order: it distributes over concatenation. */
  lemma LoadAllAppend(a: seq<RawItem>, b: seq<RawItem>, lang: string, now: int)
    ensures LoadAll(a + b, lang, now) == LoadAll(a, lang, now) + LoadAll(b, lang, now)
  {
    FlatMapAppend(a, b, Loader(lang, now));
  }

  /** Entries of another language contribute nothing. */
  lemma ForeignIgnored(items: seq<RawItem>, lang: string, now: int)
    requires forall i :: 0 <= i < |items| ==> items[i].Item? && LangOf(items[i].entry, lang) != lang
    ensures LoadAll(items, lang, now) == []
  {
    FlatMapNone(items, Loader(lang, now));
  }

  /** How `localSaveMessages` writes one entry: its fields and the page's language. */
  function Record(x: Entry, lang: string): RawItem {
    Item(RawEntry(Some(x.name), Some(x.message), Millis(x.timestamp), Absent, Some(lang)))
  }

  /** Each entry written as `localSaveMessages` writes it, in order. */
  function Records(xs: seq<Entry>, lang: string): (r: seq<RawItem>)
    ensures |r| == |xs| && Null !in r
  {
    seq(|xs|, i requires 0 <= i < |xs| => Record(xs[i], lang))
  }

  /** What `localSaveMessages` stores: the first 20 entries, each tagged with the page's language. */
  function Payload(entries: seq<Entry>, lang: string): (r: seq<RawItem>)
    ensures |r| <= MaxEntries && |r| == |Take(entries, MaxEntries)|
    ensures Null !in r
  {
    Records(Take(entries, MaxEntries), lang)
  }

  /** An entry that storage gives back unchanged: clean name and message, a non-zero time. */
  predicate Settled(x: Entry) {
    && x.name != "" && |x.name| <= 24 && NoneOf(x.name, Controls) && PlainSpaces(x.name)
    && NoDoubleSpace(x.name) && Trimmed(x.name)
    && x.message != "" && |x.message| <= 160 && NoneOf(x.message, MessageControls) && Trimmed(x.message)
    && x.timestamp != 0
  }

  /** An entry of the page's language with a message is loaded with its cleaned name and message. */
  lemma LoadShown(e: RawEntry, lang: string, now: int)
    requires LangOf(e, lang) == lang && SanitizeMessage(e.message) != ""
    ensures LoadItem(Item(e), lang, now) == [Entry(DisplayName(e.name, lang), SanitizeMessage(e.message), StoredTime(e, now))]
  {
  }

  /** An entry whose name and message clean to themselves and whose time is set loads back as itself. */
  lemma LoadRecord(x: Entry, lang: string, now: int)
    requires SanitizeName(Some(x.name)) == x.name != "" && SanitizeMessage(Some(x.message)) == x.message != ""
    requires x.timestamp != 0
    ensures LoadItem(Record(x, lang), lang, now) == [x]
  {
    var e := RawEntry(Some(x.name), Some(x.message), Millis(x.timestamp), Absent, Some(lang));
    assert Record(x, lang) == Item(e);
    LoadShown(e, lang, now);
    assert DisplayName(e.name, lang) == x.name;
    assert StoredTime(e, now) == x.timestamp;
  }

  /** A settled entry is one that cleaning leaves as it is. */
  lemma SettledFixed(x: Entry)
    requires Settled(x)
    ensures SanitizeName(Some(x.name)) == x.name != "" && SanitizeMessage(Some(x.message)) == x.message != ""
  {
    NameFixed(x.name);
    MessageFixed(x.message);
  }

  /** Records of settled entries load back as those entries. */
  lemma LoadRecords(xs: seq<Entry>, lang: string, now: int)
    requires forall i :: 0 <= i < |xs| ==> Settled(xs[i])
    ensures LoadAll(Records(xs, lang), lang, now) == xs
  {
    var items := Records(xs, lang);
    forall i | 0 <= i < |items|
      ensures Loader(lang, now)(items[i]) == [xs[i]]
    {
      SettledFixed(xs[i]);
      LoadRecord(xs[i], lang, now);
    }
    FlatMapEach(items, xs, Loader(lang, now));
  }

  /** Saving entries that are already clean and loading them back gives the first 20 of them. */
  lemma LoadAfterSave(xs: seq<Entry>, lang: string, now: int)
    requires forall i :: 0 <= i < |xs| ==> Settled(xs[i])
    ensures LoadMessages(Some(Array(Payload(xs, lang))), lang, now) == Take(xs, MaxEntries)
  {
    var kept := Take(xs, MaxEntries);
    LoadRecords(kept, lang, now);
  }
}
