/**
 * The retro page's counters and guestbook over local storage: the storage
 * keys, the counter reads and increments, `syncLocalState`, and the visit,
 * clap and submit handlers, each of which may go through the remote endpoint
 * first and falls back to local storage.
 *
 * A remote request is not performed here: a handler is given the reply the
 * endpoint would send, `None` standing for any failure (network error, HTTP
 * error, a body that is not JSON, `ok: false`). Reading the reply's counters
 * as numbers gives `None` where `Number.isFinite` fails. `Date.now()` is the
 * parameter `now`.
 */
module RetroSite {
  import opened Optional
  import opened Decimal
  import opened Sanitize
  import opened Guestbook

  const Prefix: string := "takuma_site_"

  /** The visit counter is kept per page language. */
  function VisitsKey(lang: string): string {
    Prefix + "visits_" + lang
  }

  /** The clap counter is shared by every language. */
  const ClapsKey: string := Prefix + "claps"

  /** The guestbook is kept per page language. */
  function BbsKey(lang: string): string {
    Prefix + "bbs_entries_" + lang
  }

  /** The three kinds of key never collide, and a key of one kind names one language. */
  lemma KeysDistinct(lang: string, other: string)
    ensures VisitsKey(lang) != ClapsKey && BbsKey(lang) != ClapsKey && VisitsKey(lang) != BbsKey(other)
    ensures VisitsKey(lang) == VisitsKey(other) <==> lang == other
    ensures BbsKey(lang) == BbsKey(other) <==> lang == other
  {
    assert VisitsKey(lang)[12] == 'v' && ClapsKey[12] == 'c' && BbsKey(other)[12] == 'b';
    assert BbsKey(lang)[12] == 'b';
    if VisitsKey(lang) == VisitsKey(other) {
      assert lang == VisitsKey(lang)[19..] && other == VisitsKey(other)[19..];
    }
    if BbsKey(lang) == BbsKey(other) {
      assert lang == BbsKey(lang)[24..] && other == BbsKey(other)[24..];
    }
  }

  /** `localStorage.getItem`: the value under a key, if any. */
  function Lookup(store: map<string, Stored>, key: string): Option<Stored> {
    if key in store then Some(store[key]) else None
  }

  /**
   * `Number(localStorage.getItem(key) || '0') || 0`: a missing key, empty
   * text or text that is not a number read as 0.
   */
  function ReadCount(store: map<string, Stored>, key: string): (r: int)
    ensures key !in store ==> r == 0
    ensures key in store && store[key].Array? ==> r == 0
    ensures key in store && store[key].Text? && Number(store[key].text).None? ==> r == 0
    ensures key in store && store[key].Text? && store[key].text != "" && Number(store[key].text).Some? ==>
      r == Number(store[key].text).value
  {
    match Lookup(store, key)
    case None => 0
    case Some(Array(_)) => 0
    case Some(Text(s)) => if s == "" then 0 else Number(s).GetOr(0)
  }

  /** The store after `localStorage.setItem(key, String(n))`. */
  function Written(store: map<string, Stored>, key: string, n: int): (r: map<string, Stored>)
    ensures key in r && r.Keys == store.Keys + {key}
  {
    store[key := Text(Show(n))]
  }

  /** A counter written to the store reads back as itself; every other key is left alone. */
  lemma WrittenReads(store: map<string, Stored>, key: string, n: int, other: string)
    ensures ReadCount(Written(store, key, n), key) == n
    ensures other != key ==> Lookup(Written(store, key, n), other) == Lookup(store, other)
  {
    ShowNumber(n);
  }

  /** The store after `localIncrementVisit` or `localIncrementClap` on `key`. */
  function Bumped(store: map<string, Stored>, key: string): map<string, Stored> {
    Written(store, key, ReadCount(store, key) + 1)
  }

  /** An increment raises its own counter by one and changes no other key. */
  lemma BumpedReads(store: map<string, Stored>, key: string, other: string)
    ensures ReadCount(Bumped(store, key), key) == ReadCount(store, key) + 1
    ensures other != key ==> Lookup(Bumped(store, key), other) == Lookup(store, other)
  {
    WrittenReads(store, key, ReadCount(store, key) + 1, other);
  }

  /** The store after `syncLocalState`: both counters and the guestbook written. */
  function Synced(store: map<string, Stored>, lang: string, visits: int, claps: int, messages: seq<Entry>): map<string, Stored> {
    Written(Written(store, VisitsKey(lang), visits), ClapsKey, claps)[BbsKey(lang) := Array(Payload(messages, lang))]
  }

  /** The guestbook a sync writes loads back as its first 20 entries when they are already clean. */
  lemma SyncedBook(store: map<string, Stored>, lang: string, visits: int, claps: int, messages: seq<Entry>, now: int)
    requires forall i :: 0 <= i < |messages| ==> Settled(messages[i])
    ensures LoadMessages(Lookup(Synced(store, lang, visits, claps, messages), BbsKey(lang)), lang, now) == Take(messages, MaxEntries)
  {
    assert Lookup(Synced(store, lang, visits, claps, messages), BbsKey(lang)) == Some(Array(Payload(messages, lang)));
    LoadAfterSave(messages, lang, now);
  }

  /** After a sync both counters read back as the page's own; every key a sync does not write is left alone. */
  lemma SyncedReads(store: map<string, Stored>, lang: string, visits: int, claps: int, messages: seq<Entry>, other: string)
    ensures var s := Synced(store, lang, visits, claps, messages);
      && ReadCount(s, VisitsKey(lang)) == visits
      && ReadCount(s, ClapsKey) == claps
      && (other != VisitsKey(lang) && other != ClapsKey && other != BbsKey(lang) ==> Lookup(s, other) == Lookup(store, other))
  {
    KeysDistinct(lang, lang);
    var s1 := Written(store, VisitsKey(lang), visits);
    var s2 := Written(s1, ClapsKey, claps);
    var s := Synced(store, lang, visits, claps, messages);
    assert s == s2[BbsKey(lang) := Array(Payload(messages, lang))];
    WrittenReads(store, VisitsKey(lang), visits, ClapsKey);
    WrittenReads(s1, ClapsKey, claps, VisitsKey(lang));
    WrittenReads(store, VisitsKey(lang), visits, other);
    WrittenReads(s1, ClapsKey, claps, other);
    assert Lookup(s, VisitsKey(lang)) == Lookup(s2, VisitsKey(lang));
    assert Lookup(s, ClapsKey) == Lookup(s2, ClapsKey);
  }

  /** `state.remote`: an endpoint was configured and is not blank once trimmed. */
  function Remote(endpoint: Option<string>): (r: bool)
    ensures r ==> endpoint.Some?
  {
    endpoint.Some? && Trim(endpoint.value) != ""
  }

  /** Only a blank or missing endpoint keeps the page local. */
  lemma RemoteIff(endpoint: Option<string>)
    ensures Remote(endpoint) <==> endpoint.Some? && !Blank(endpoint.value)
  {
    if endpoint.Some? {
      TrimBlank(endpoint.value);
    }
  }

  /** The new guestbook after a local submit: the new entry, then the stored ones, at most 20. */
  function Prepended(x: Entry, stored: seq<Entry>): (r: seq<Entry>)
    ensures |r| <= MaxEntries && r != [] && r[0] == x
  {
    Take([x] + stored, MaxEntries)
  }

  /** A local submit puts the new entry first and keeps the older entries after it, in order, up to the cap. */
  lemma PrependedKeeps(x: Entry, stored: seq<Entry>)
    ensures Prepended(x, stored)[1..] == Take(stored, MaxEntries - 1)
    ensures |Prepended(x, stored)| == if |stored| < MaxEntries then |stored| + 1 else MaxEntries
  {
    var r := Prepended(x, stored);
    assert r[1..] == ([x] + stored)[1..|r|];
    assert ([x] + stored)[1..] == stored;
  }

  /** A successful reply's counter, or the page's own when the reply's is not a finite number. */
  function Counter(reply: Option<int>, current: int): int {
    reply.GetOr(current)
  }

  /** What the endpoint answers: counters and the guestbook, each possibly missing or not a number/array. */
  datatype Reply = Reply(visits: Option<int>, claps: Option<int>, messages: Option<seq<RawItem>>)

  /** The page's state: the counters, the shown guestbook, whether to use the endpoint, and local storage. */
  class Site {
    const lang: string
    var remote: bool
    var visits: int
    var claps: int
    var messages: seq<Entry>
    var store: map<string, Stored>

    /** The shown guestbook is never longer than 20 entries and every entry has a name and a message. */
    predicate Valid()
      reads this
    {
      |messages| <= MaxEntries && AllWellFormed(messages)
    }

    /** The script's start: counters read from storage, no messages yet. */
    constructor (lang: string, store: map<string, Stored>, endpoint: Option<string>)
      ensures this.lang == lang && this.store == store && remote == Remote(endpoint)
      ensures visits == ReadCount(store, VisitsKey(lang)) && claps == ReadCount(store, ClapsKey)
      ensures messages == [] && Valid()
    {
      this.lang := lang;
      this.store := store;
      remote := Remote(endpoint);
      visits := ReadCount(store, VisitsKey(lang));
      claps := ReadCount(store, ClapsKey);
      messages := [];
    }

    /** `localIncrementVisit`. */
    method LocalIncrementVisit() returns (next: int)
      modifies this`store
      ensures next == old(ReadCount(store, VisitsKey(lang))) + 1
      ensures store == Bumped(old(store), VisitsKey(lang))
    {
      next := ReadCount(store, VisitsKey(lang)) + 1;
      store := Written(store, VisitsKey(lang), next);
    }

    /** `localIncrementClap`. */
    method LocalIncrementClap() returns (next: int)
      modifies this`store
      ensures next == old(ReadCount(store, ClapsKey)) + 1
      ensures store == Bumped(old(store), ClapsKey)
    {
      next := ReadCount(store, ClapsKey) + 1;
      store := Written(store, ClapsKey, next);
    }

    /** `localSaveMessages`: the first 20 entries, tagged with the page's language. */
    method LocalSaveMessages(entries: seq<Entry>)
      modifies this`store
      ensures store == old(store)[BbsKey(lang) := Array(Payload(entries, lang))]
    {
      store := store[BbsKey(lang) := Array(Payload(entries, lang))];
    }

    /** `syncLocalState`. */
    method SyncLocalState()
      modifies this`store
      ensures store == Synced(old(store), lang, visits, claps, messages)
    {
      store := Written(store, VisitsKey(lang), visits);
      store := Written(store, ClapsKey, claps);
      LocalSaveMessages(messages);
    }

    /**
     * A reply's guestbook taken in: normalised, shown and synced to storage,
     * unless normalising throws, which leaves both as they were.
     */
    method TakeMessages(entries: Option<seq<RawItem>>, now: int)
      requires Valid()
      modifies this`messages, this`store
      ensures Valid()
      ensures match NormalizeMessages(entries, lang, now)
        case Thrown => messages == old(messages) && store == old(store)
        case Done(ms) => messages == ms && store == Synced(old(store), lang, visits, claps, ms)
    {
      var normalized := NormalizeMessages(entries, lang, now);
      if normalized.Done? {
        messages := normalized.value;
        SyncLocalState();
      }
    }

    /** The local path of a submit: the new entry in front of the stored guestbook, capped, shown and saved. */
    method LocalSubmit(entry: Entry, now: int)
      requires WellFormed(entry)
      modifies this`messages, this`store
      ensures Valid()
      ensures messages == Prepended(entry, LoadMessages(Lookup(old(store), BbsKey(lang)), lang, now))
      ensures store == old(store)[BbsKey(lang) := Array(Payload(messages, lang))]
    {
      messages := Prepended(entry, LoadMessages(Lookup(store, BbsKey(lang)), lang, now));
      LocalSaveMessages(messages);
    }

    /** The synchronous part of the page-load handler: show the stored guestbook. */
    method Loaded(now: int)
      requires Valid()
      modifies this`messages
      ensures messages == LoadMessages(Lookup(store, BbsKey(lang)), lang, now) && Valid()
    {
      messages := LoadMessages(Lookup(store, BbsKey(lang)), lang, now);
    }

    /**
     * `handleVisit`. With the endpoint and a reply: take the reply's counters
     * where they are numbers and its normalised guestbook, then sync storage;
     * a `null` in the reply's guestbook throws after the counters are taken.
     * Otherwise (no endpoint, or the request failed, which turns the endpoint
     * off): count the visit locally and show the stored clap count and
     * guestbook.
     */
    method HandleVisit(reply: Option<Reply>, now: int)
      requires Valid()
      modifies this
      ensures Valid()
      ensures remote == (old(remote) && reply.Some?)
      ensures remote ==>
        && visits == Counter(reply.value.visits, old(visits))
        && claps == Counter(reply.value.claps, old(claps))
        && match NormalizeMessages(reply.value.messages, lang, now)
           case Thrown => messages == old(messages) && store == old(store)
           case Done(ms) => messages == ms && store == Synced(old(store), lang, visits, claps, ms)
      ensures !remote ==>
        && store == Bumped(old(store), VisitsKey(lang))
        && visits == ReadCount(store, VisitsKey(lang))
        && claps == ReadCount(old(store), ClapsKey)
        && messages == LoadMessages(Lookup(old(store), BbsKey(lang)), lang, now)
    {
      if remote {
        if reply.None? {
          remote := false;
        } else {
          visits := Counter(reply.value.visits, visits);
          claps := Counter(reply.value.claps, claps);
          TakeMessages(reply.value.messages, now);
          return;
        }
      }
      KeysDistinct(lang, lang);
      BumpedReads(store, VisitsKey(lang), ClapsKey);
      BumpedReads(store, VisitsKey(lang), BbsKey(lang));
      visits := LocalIncrementVisit();
      claps := ReadCount(store, ClapsKey);
      messages := LoadMessages(Lookup(store, BbsKey(lang)), lang, now);
    }

    /**
     * The clap button's click handler. With the endpoint and a reply: take
     * the reply's clap count, or add one when it is not a number, and its
     * visit count where it is one. Otherwise count the clap locally. Storage
     * is synced in both cases; the shown guestbook does not change.
     */
    method Clap(reply: Option<Reply>)
      requires Valid()
      modifies this
      ensures Valid() && messages == old(messages)
      ensures remote == (old(remote) && reply.Some?)
      ensures remote ==>
        && visits == Counter(reply.value.visits, old(visits))
        && claps == Counter(reply.value.claps, old(claps) + 1)
        && store == Synced(old(store), lang, visits, claps, messages)
      ensures !remote ==>
        && visits == old(visits)
        && claps == ReadCount(old(store), ClapsKey) + 1
        && store == Synced(Bumped(old(store), ClapsKey), lang, visits, claps, messages)
    {
      var handled := false;
      if remote {
        if reply.None? {
          remote := false;
        } else {
          claps := Counter(reply.value.claps, claps + 1);
          visits := Counter(reply.value.visits, visits);
          handled := true;
        }
      }
      if !handled {
        claps := LocalIncrementClap();
      }
      SyncLocalState();
    }

    /**
     * A new entry posted: with the endpoint and a reply, show the reply's
     * normalised guestbook and sync storage (a `null` in it throws before
     * either); otherwise the new entry goes in front of the stored guestbook,
     * capped at 20, and that is shown and saved.
     */
    method Post(entry: Entry, reply: Option<Reply>, now: int)
      requires Valid() && WellFormed(entry)
      modifies this`remote, this`messages, this`store
      ensures Valid()
      ensures remote == (old(remote) && reply.Some?)
      ensures remote ==>
        match NormalizeMessages(reply.value.messages, lang, now)
        case Thrown => messages == old(messages) && store == old(store)
        case Done(ms) => messages == ms && store == Synced(old(store), lang, visits, claps, ms)
      ensures !remote ==>
        && messages == Prepended(entry, LoadMessages(Lookup(old(store), BbsKey(lang)), lang, now))
        && store == old(store)[BbsKey(lang) := Array(Payload(messages, lang))]
    {
      if remote {
        if reply.None? {
          remote := false;
        } else {
          TakeMessages(reply.value.messages, now);
          return;
        }
      }
      LocalSubmit(entry, now);
    }

    /**
     * The guestbook form's submit handler: the name and message are cleaned,
     * the anonymous name standing in for an empty name. A message that cleans
     * to nothing changes nothing and sends nothing; any other is posted.
     */
    method Submit(rawName: Option<string>, rawMessage: Option<string>, reply: Option<Reply>, now: int)
      requires Valid()
      modifies this`remote, this`messages, this`store
      ensures Valid()
      ensures SanitizeMessage(rawMessage) == "" ==>
        remote == old(remote) && messages == old(messages) && store == old(store)
      ensures SanitizeMessage(rawMessage) != "" ==> remote == (old(remote) && reply.Some?)
      ensures SanitizeMessage(rawMessage) != "" && remote ==>
        match NormalizeMessages(reply.value.messages, lang, now)
        case Thrown => messages == old(messages) && store == old(store)
        case Done(ms) => messages == ms && store == Synced(old(store), lang, visits, claps, ms)
      ensures SanitizeMessage(rawMessage) != "" && !remote ==>
        && messages == Prepended(Entry(DisplayName(rawName, lang), SanitizeMessage(rawMessage), now),
                                 LoadMessages(Lookup(old(store), BbsKey(lang)), lang, now))
        && store == old(store)[BbsKey(lang) := Array(Payload(messages, lang))]
    {
      var message := SanitizeMessage(rawMessage);
      if message != "" {
        Post(Entry(DisplayName(rawName, lang), message, now), reply, now);
      }
    }
  }
}
