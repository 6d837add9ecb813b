# Tempo new-tab page: favicons, bookmarks, date and time

This project models the logic behind the Tempo browser new-tab page in Dafny
and proves properties of that model. It covers five parts:

- **The favicon resolver** (`FaviconLoader`), in `favicon.dfy`.
  - It turns a URL into a domain, stripping one leading `www.`, with a text
    fallback for URLs that do not parse.
  - It looks the pair (domain, size) up in an in-memory cache keyed
    `domain_size`.
  - On a miss it probes six candidate icon URLs in a fixed order. The first
    one that loads is cached and answered. When none loads, a built-in SVG
    default icon is answered and nothing is cached.
  - A table of ten hand-picked icons is tried first by `loadFaviconSmart`.
  - `preloadFavicons` resolves a list of bookmarks. The cache can also be
    cleared and reported.
- **The background page's bookmark-tree flattening**
  (`extractBookmarksFromTree`), in `background.dfy`.
  - It walks the browser's bookmark tree depth first.
  - It tags every bookmark with the lower-cased title of its nearest titled
    folder, or `"other"`.
  - It pushes the records into one accumulator that every recursive call
    shares and sorts in place, newest first.
  - It hands back the first 30 records.
- **The bookmark manager** (`BookmarkManager`), in `bookmarks.dfy`.
  - It holds the list behind the sidebar.
  - Adding puts a record in front. Removing filters by id. A visit bumps
    the first record with the id. Each of these changes is followed by a
    save.
  - It also builds records from the tree (`extractBookmarks`) and from the
    background page's records, and it has five default bookmarks.
- **The date formatter**, in `date_format.dfy`.
  - It holds the name tables and the English ordinal suffix.
  - It produces the long, short and ordinal date texts.
  - It detects a change of day.
- **The time formatter**, in `time_format.dfy`.
  - It does two-digit padding and the 24- to 12-hour conversion.
  - It detects a change of minute.

The shared records and JavaScript string helpers are in `records.dfy`,
`text.dfy` and `wrappers.dfy`.

## How the browser is abstracted

- **Parsing a URL.** `new URL(url).hostname` is a function
  `hostOf: string -> Option<string>` given to the resolver's constructor.
  `None` stands for the constructor throwing.
- **The image probe.** `testFaviconUrl` is a method whose boolean answer is
  unconstrained. Every probe and its answer are recorded in the ghost log
  `probes`, so that the contracts can say which URLs were tried, in which
  order and with what outcome.
- **The clock.** `Date.now()` and `new Date()` are parameters (`now`).
- **Saving to local storage.** `saveBookmarks` is the ghost snapshot
  `persisted` of the list it would write.

## What is proved

**Favicon resolver**

- A cache hit answers the cached URL. It makes no probe and changes nothing.
- On a miss, the candidates are probed strictly in order and nothing is
  probed after the first success. That success is cached under
  `domain_size` and answered.
- When all six probes fail, the default icon is answered and the cache is
  left as it was. So the next call for the same URL probes again
  (`ResolveTwice`).
- Cache invariant: every cached value is what one of the generators makes
  of the very domain and size its key names. The key `domain_size`
  determines the pair, and only the first generator depends on the size.
- The default icon is never one of the candidates.
- Every answer is a non-empty URL: the default is a `data:image/svg+xml,`
  URL, and every candidate and hand-picked icon is an `https://` URL.
- `loadFaviconSmart` answers the hand-picked icon only when the domain has
  one and its probe passes, and then the cache is untouched. Otherwise it
  resolves exactly as `getFaviconUrl` does.

**Tree flattening**

- `extractBookmarksFromTree` returns the first 30 of a stable newest-first
  sort of all records in depth-first pre-order.
- The nested in-place sorts and the dropped nested slices change nothing,
  so the list is truncated only once.
- The result is sorted and holds `min(30, bookmarks)` records.
- It is a sub-multiset of the pre-order list.
- Records with the same date keep traversal order.
- Every folder tag is lower case.

**Bookmark manager**

- `extractBookmarks` pushes, record for record, what the background page's
  walk pushes, re-stamped.
- The list operations are pinned down exactly, including what the saved
  snapshot is afterwards.
- The id filter keeps order, is idempotent and is a no-op on an absent id.

**Dates and times**

- The three date texts can be read back into the month, day and year they
  show.
- The ordinal suffix agrees with the English rule on days 1 to 31.
- The 12-hour conversion loses nothing on hours 0 to 23.
- The change detectors compare only the fields they name.

## Model

| member | source | states |
|---|---|---|
| Favicon.FaviconSources | src/js/FaviconLoader.js:3-11 | The `faviconSources` array: six generators, the i-th making the i-th candidate URL `Source(i, domain, size)`. |
| Favicon.SourcesAndSize | src/js/FaviconLoader.js:3-11 | There are six generators. Generators 2 to 6 make the same URL whatever the size, and the first makes different URLs for different sizes. |
| Favicon.CandidatesAreNotSvgData | src/js/FaviconLoader.js:3-11 | Every candidate URL starts with `https://`, so it differs from any SVG data URL such as the default icon. |
| Favicon.CreateDefaultIcon | src/js/FaviconLoader.js:86-95 | The default icon is a `data:image/svg+xml,` URL. |
| Favicon.WithoutScheme | src/js/FaviconLoader.js:57 | A leading `https://` or `http://` is removed, and any other text is left as it is. |
| Favicon.BeforeSlash | src/js/FaviconLoader.js:57 | The answer is the slash-free prefix that runs up to the first `/` or to the end. |
| Favicon.ExtractDomain | src/js/FaviconLoader.js:44-59 | With a hostname, the answer is the hostname with one leading `www.` removed when present, and unchanged otherwise. Without one, it is the text before the first `/` once the scheme is stripped. |
| Favicon.OneWwwStripped | src/js/FaviconLoader.js:50-52 | `www.www.example.com` becomes `www.example.com`: only one `www.` goes. |
| Favicon.FallbackKeepsHost | src/js/FaviconLoader.js:55-58 | Unparseable text keeps its `www.` and loses its path, and an `http://` in front makes no difference. |
| Favicon.CacheKey | src/js/FaviconLoader.js:20 | The key `domain_size`; `CacheKeyInjective` shows it names one pair. |
| Favicon.CacheKeyInjective | src/js/FaviconLoader.js:20 | Equal keys `domain_size` come only from equal (domain, size) pairs. |
| Favicon.WwwAndBareShareKey | src/js/FaviconLoader.js:19-20 | With a URL parser, a `www.example.com` URL and an `example.com` URL both use the key `example.com_32`. |
| Favicon.SpecialCaseFavicon | src/js/FaviconLoader.js:114-137 | A known domain's hand-picked icon is an `https://` URL; other domains have none. |
| Favicon.SpecialCasePath | src/js/FaviconLoader.js:115-134 | The ten table entries, each written after its scheme. |
| Favicon.SpecialCasesTable | src/js/FaviconLoader.js:114-137 | The github.com entry is the fourth generator's URL for github.com. `www.github.com` and an unknown domain have no entry. |
| Favicon.FirstPassing | src/js/FaviconLoader.js:26-33 | Reference definition: the index of the first passing probe, with every earlier one failing; None exactly when all fail. |
| Favicon.ProbeRunPicksFirstSuccess | src/js/FaviconLoader.js:26-35 | The answer is the candidate at the first passing probe, and that probe is the last one made. With no passing probe, all six were made and the answer is the default. |
| Favicon.CachedIsCandidate | src/js/FaviconLoader.js:22-23 | Under the cache invariant, a cached value is what some generator made of the domain and size being looked up. |
| Favicon.CacheInsertKeeps | src/js/FaviconLoader.js:30 | Caching a generator's URL under a fresh key keeps the cache invariant, including key order without repeats. |
| Favicon.FaviconLoader.constructor | src/js/FaviconLoader.js:2-15 | The cache is empty, the sources are the six generators, the default icon is the `data:image/svg+xml,` URL that `createDefaultIcon` builds, every candidate is an `https://` URL, and so no candidate equals the default icon. |
| Favicon.FaviconLoader.TestFaviconUrl | src/js/FaviconLoader.js:64-84 | The probe is appended, with its answer, to the probe log. |
| Favicon.FaviconLoader.ProbeSources | src/js/FaviconLoader.js:26-33 | The new probes are one probe run in generator order. A found index names the generator whose URL is answered; when nothing is found, the answer is the default. |
| Favicon.FaviconLoader.GetFaviconUrl | src/js/FaviconLoader.js:17-39 | On a hit, the cached value is answered with no probe and no change. On a miss, there is one probe run, and only a success is cached. The key ends up cached exactly when the answer is not the default. The answer is never empty. |
| Favicon.FaviconLoader.TrySpecialCase | src/js/FaviconLoader.js:143-147 | A known domain costs exactly one probe, of its hand-picked URL, which is answered if and only if that probe passes. An unknown domain costs none. |
| Favicon.FaviconLoader.LoadFaviconSmart | src/js/FaviconLoader.js:142-153 | A passing hand-picked icon is answered with the cache untouched. Otherwise the answer is `getFaviconUrl`'s resolution, after the one failed probe. The answer is never empty. |
| Favicon.FaviconLoader.PreloadFavicons | src/js/FaviconLoader.js:100-109 | Same length and order. Every record is unchanged except for `favicon`, which is set to a non-empty URL: the default or a candidate for its own URL. |
| Favicon.FaviconLoader.ClearCache | src/js/FaviconLoader.js:158-160 | The cache is empty and the invariant holds. |
| Favicon.FaviconLoader.GetCacheStats | src/js/FaviconLoader.js:165-170 | `size` is the number of cached keys, and `entries` lists exactly those keys, each once, in the order they were inserted. |
| Favicon.ResolveTwice | src/js/FaviconLoader.js:17-39 | After a success, the same call again answers the same URL without probing. After the default, it probes again. |
| Background.SortByDate | src/js/background.js:51 | Reference stable sort, newest first; its properties are the four lemmas below. |
| Background.SortPermutes | src/js/background.js:51 | The sort returns a permutation of its input. |
| Background.SortIsSorted | src/js/background.js:51 | The sort returns its input newest first, with a missing `dateAdded` counting as 0. |
| Background.SortIsStable | src/js/background.js:51 | Records with equal dates come out in their input order. |
| Background.SortAbsorbsPresort | src/js/background.js:40-51 | Sorting the front of the list first, as a nested call does, does not change the final sort. |
| Background.SortIdempotent | src/js/background.js:51 | Sorting twice is sorting once. |
| Text.LowerChar | src/js/background.js:43 | A capital becomes the small letter 32 code points on, and any other character is kept. |
| Text.ToLower | src/js/background.js:43 | Same length. Each capital becomes its own small letter and every other character is kept, so no capital is left and lower-case text is unchanged. |
| Background.UrlNodeIsLeaf | src/js/background.js:30-38 | A node with a url yields exactly one record, which copies id, title, url, dateAdded and parentId and carries the folder tag. Its children are never visited. |
| Background.FolderTagging | src/js/background.js:39-47 | A titled folder passes its lower-cased title down, and an untitled one passes the tag it inherited. |
| Background.Flatten | src/js/background.js:29-48 | The records the walk pushes for a list of siblings, in pre-order; see `FlattenCounts` and `FlattenTagsLowerCase`. |
| Background.FlattenNode | src/js/background.js:30-47 | The records the walk pushes for one node: its own record when it has a url, else its folder's records. |
| Background.FlattenCounts | src/js/background.js:29-48 | The walk pushes one record per url-bearing node it reaches. |
| Background.FlattenTagsLowerCase | src/js/background.js:27-47 | Starting from a lower-case tag such as `"other"`, every tag pushed is lower case. |
| Background.Top | src/js/background.js:52 | The answer is the first `min(30, n)` records. |
| Background.ExtractBookmarksFromTree | src/js/background.js:24-53 | The shared accumulator ends up as the sort of what it held plus this subtree's records in pre-order, and the answer is its first 30. |
| Background.ExtractFromTree | src/js/background.js:17 | The top-level call answers the first 30 of the sorted pre-order list tagged from `"other"`. |
| Background.ExtractedIsSorted | src/js/background.js:50-52 | The answer is newest first. |
| Background.ExtractedLength | src/js/background.js:50-52 | The answer holds `min(30, number of url-bearing nodes)` records. |
| Background.ExtractedIsSubMultiset | src/js/background.js:29-52 | No record is invented or duplicated. |
| Background.ExtractedKeepsTieOrder | src/js/background.js:40-52 | For each date, the answer's records are the first ones of that date in pre-order, in that order. |
| Background.ExtractedTagsLowerCase | src/js/background.js:27-47 | Every tag in the answer is lower case. |
| Records.Increment | src/js/BookmarkManager.js:156 | `x++` adds one to a number and gives NaN for a missing value or NaN. |
| Bookmarks.PreOrder | src/js/BookmarkManager.js:58-75 | The records `extractBookmarks` pushes, in pre-order; see `PreOrderRecords`. |
| Bookmarks.PreOrderIsBackgroundOrder | src/js/BookmarkManager.js:58-75 | `extractBookmarks` pushes, node for node, what the background page's walk pushes, with favicon, visit time and count set and folder, date and parent dropped. |
| Bookmarks.PreOrderRecords | src/js/BookmarkManager.js:61-68 | There is one record per url-bearing node, each with favicon `chrome://favicon/<url>`, count 0 and the visit time `now`. |
| Bookmarks.ExtractedBookmarksLength | src/js/BookmarkManager.js:58-75 | The answer is a prefix of the pre-order list of length `min(30, n)`: nested folders are not cut short. |
| Bookmarks.BookmarkManager.constructor | src/js/BookmarkManager.js:4-8 | The list is empty, nothing is saved, and there is a fresh resolver. |
| Bookmarks.BookmarkManager.ExtractBookmarks | src/js/BookmarkManager.js:58-75 | The shared accumulator gains this subtree's records in pre-order, and the answer is its first 30. |
| Bookmarks.BookmarkManager.ExtractFromTree | src/js/BookmarkManager.js:58 | With a fresh accumulator, the answer is the first 30 of the pre-order records. |
| Bookmarks.BookmarkManager.ProcessBookmarksFromBackground | src/js/BookmarkManager.js:44-53 | Same length and order. Each record keeps its fields except a visit time of `now`, a count of 0 and a resolved, non-empty favicon. |
| Bookmarks.BookmarkManager.GetDefaultBookmarks | src/js/BookmarkManager.js:80-111 | The five defaults, in order, each with only its favicon set, to a non-empty URL: the default or a candidate for its url. |
| Bookmarks.BookmarkManager.GetAllBookmarks | src/js/BookmarkManager.js:116-118 | The answer is the current list itself. |
| Bookmarks.BookmarkManager.AddBookmark | src/js/BookmarkManager.js:123-140 | When the url parses, the new record goes in front of the unchanged old list and the new list is saved. When it does not, nothing changes. |
| Bookmarks.BookmarkManager.RemoveBookmark | src/js/BookmarkManager.js:145-148 | The list is filtered by id and saved. |
| Bookmarks.BookmarkManager.RecordVisit | src/js/BookmarkManager.js:153-160 | Only the first record with the id is bumped and stamped, and the list is saved. When no record has the id, nothing changes and nothing is saved. |
| Bookmarks.BookmarkManager.SaveBookmarks | src/js/BookmarkManager.js:165-171 | The snapshot is the current list. |
| Bookmarks.DefaultBookmarks | src/js/BookmarkManager.js:81-107 | The five default records; see `DefaultBookmarksTable`. |
| Bookmarks.DefaultBookmarksTable | src/js/BookmarkManager.js:81-107 | Five records with the distinct ids "1" to "5" and titles GitHub, YouTube, Gmail, Reddit, Amazon. A visit to one makes its count NaN. |
| Bookmarks.NewBookmark | src/js/BookmarkManager.js:124-134 | The id is the time as decimal text. Title and url are as given, category is "other", count is 0, the visit time is `now` and the favicon is the sizeless Google URL for the host. |
| Bookmarks.WithoutId | src/js/BookmarkManager.js:146 | The id filter never lengthens the list; the four lemmas below pin it down. |
| Bookmarks.WithoutIdMembers | src/js/BookmarkManager.js:146 | A record remains exactly when it was there and has another id. |
| Bookmarks.WithoutIdConcat | src/js/BookmarkManager.js:146 | Filtering keeps order: filtering a concatenation is concatenating the filtered parts. |
| Bookmarks.WithoutIdAbsent | src/js/BookmarkManager.js:146 | With no record carrying the id, the filter changes nothing. |
| Bookmarks.WithoutIdIdempotent | src/js/BookmarkManager.js:146 | Removing twice is removing once. |
| Bookmarks.FindById | src/js/BookmarkManager.js:154 | The answer is the index of the first record with the id, or None when there is none. |
| Bookmarks.Visited | src/js/BookmarkManager.js:156-157 | The count goes up by one, or becomes NaN when not a number. The visit time is `now` and everything else is kept. |
| DateFormat.NameTables | src/js/DateFormatter.js:5-18 | There are 7 day names and 12 month names, and every short month name is the first three letters of the full one. |
| DateFormat.CurrentDate | src/js/DateFormatter.js:24-35 | The numbers are copied from the reading, and the day name, month name and short month name are the table entries at the reading's weekday and month. For a non-negative year the result is a well-formed date. |
| DateFormat.CurrentDateRoundTrip | src/js/DateFormatter.js:24-44 | The long text of the date built from a reading reads back as that reading's month, day and year. |
| DateFormat.OrdinalSuffix | src/js/DateFormatter.js:60-68 | "st", "nd" and "rd" exactly for positive days outside 4..20 ending in 1, 2 and 3; "th" otherwise. |
| DateFormat.OrdinalSuffixIsEnglish | src/js/DateFormatter.js:60-68 | On days 1 to 31 it agrees with the English rule, under which 11, 12 and 13 take "th". |
| DateFormat.OrdinalSuffixBeyondMonths | src/js/DateFormatter.js:60-68 | Beyond month days the two rules part: 111 gets "st". |
| DateFormat.OrdinalDateExtendsLongDate | src/js/DateFormatter.js:75-78 | The ordinal text is the long text with the suffix right after the day. The short text differs from the long one only in the name. |
| DateFormat.FormatLongDate | src/js/DateFormatter.js:42-44 | "Month D, YYYY"; read back by `LongDateRoundTrip`. |
| DateFormat.FormatShortDate | src/js/DateFormatter.js:51-53 | "Mon D, YYYY"; read back by `ShortDateRoundTrip`. |
| DateFormat.FormatOrdinalDate | src/js/DateFormatter.js:75-78 | "Month Dth, YYYY"; read back by `OrdinalDateRoundTrip`. |
| DateFormat.LongDateRoundTrip | src/js/DateFormatter.js:42-44 | "Month D, YYYY" reads back as the month, day and year it was made from. |
| DateFormat.ShortDateRoundTrip | src/js/DateFormatter.js:51-53 | "Mon D, YYYY" reads back as its month, day and year. |
| DateFormat.OrdinalDateRoundTrip | src/js/DateFormatter.js:75-78 | "Month Dth, YYYY" reads back as its month, day and year. |
| DateFormat.HasDayChanged | src/js/DateFormatter.js:86-90 | A missing date always counts as a change. Otherwise the answer is true exactly when the weekday or the day of the month differ. |
| DateFormat.DayChangeSymmetric | src/js/DateFormatter.js:86-90 | The check is symmetric. |
| DateFormat.UnchangedDayKeepsNames | src/js/DateFormatter.js:86-90 | When no change is reported, the weekday name and the ordinal suffix shown stay the same. |
| DateFormat.MonthAndYearIgnored | src/js/DateFormatter.js:86-90 | Monday 1 January and Monday 1 April count as the same day. |
| TimeFormat.FormatTwoDigits | src/js/TimeFormatter.js:2-12 | For 0 to 99: two digits whose value is the number. One digit gets a leading "0", and larger numbers are not cut. |
| TimeFormat.FormatTwoDigitsInjective | src/js/TimeFormatter.js:2-12 | Different values in 0 to 99 give different texts. |
| TimeFormat.JsRemainder | src/js/TimeFormatter.js:30 | JavaScript's `%`: the usual remainder on non-negative numbers and a non-positive one on negative numbers. |
| TimeFormat.DisplayHour | src/js/TimeFormatter.js:30 | For hours 0 to 23 the shown hour is in 1 to 12 and agrees with the hour modulo 12. |
| TimeFormat.DisplayHourValue | src/js/TimeFormatter.js:30 | 0 and 12 show 12, afternoon hours drop by twelve, and morning hours stay. |
| TimeFormat.To12Hour | src/js/TimeFormatter.js:28-36 | "PM" exactly from 12 on, "AM" before. The formatted text is two digits whose value is the shown hour. |
| TimeFormat.To12HourRoundTrip | src/js/TimeFormatter.js:28-36 | The hour and the period together give back the 24-hour value. |
| TimeFormat.MidnightAndNoonShowTwelve | src/js/TimeFormatter.js:28-36 | 0 gives 12 AM and 12 gives 12 PM, both shown "12". |
| TimeFormat.CurrentTime | src/js/TimeFormatter.js:14-26 | The raw fields are the reading, and each text field is two digits whose value is the raw field. |
| TimeFormat.HasMinuteChanged | src/js/TimeFormatter.js:44-47 | A missing reading always counts as a change. Otherwise the answer is true exactly when the raw minutes differ. |
| TimeFormat.MinuteChangeSymmetric | src/js/TimeFormatter.js:44-47 | The check is symmetric. |
| TimeFormat.MinuteChangeMatchesDisplay | src/js/TimeFormatter.js:44-47 | On real clock readings, comparing raw minutes is comparing the displayed minutes. |
| TimeFormat.SameMinuteOtherHourUnchanged | src/js/TimeFormatter.js:44-47 | The same minute in another hour is not a change. |

## Left out

- **The image probe** (`testFaviconUrl`): loading an `Image`, its width and height, and the 3000 ms timeout. It is an unconstrained oracle whose answers are logged.
- **`new URL(url).hostname`**, from the WHATWG URL Standard: an abstract partial function `hostOf`. Which inputs parse, and what the hostname of a URL is, are not modelled.
- **`encodeURIComponent`**: the encoded SVG text of the default icon is written out as a literal.
- Favicon.CreateDefaultIcon: states only the `data:image/svg+xml,` prefix, not the encoded markup. Reasoning about the 457-character literal is more than the solver can afford, and the prefix is all the proofs need.
- **Concurrency in `preloadFavicons`**: `Promise.all` runs the resolutions concurrently, so two bookmarks with the same domain may both probe. The model resolves them one after the other, so the second one hits the cache.
- **Aliasing in `preloadFavicons`**: it writes `favicon` into the caller's objects in place. The model returns new records and does not capture aliasing with the caller's array.
- Favicon.FaviconLoader.PreloadFavicons: states that each favicon is the default or a candidate for that record's url, not the exact resolution of each record against the evolving cache.
- Bookmarks.BookmarkManager.ProcessBookmarksFromBackground: its favicon is stated as in PreloadFavicons, and one `now` stands for the per-record `Date.now()` reads.
- Bookmarks.BookmarkManager.GetDefaultBookmarks: its favicon is stated as in PreloadFavicons.
- Bookmarks.BookmarkManager.ExtractBookmarks: one `now` stands for the `Date.now()` read at each push.
- Bookmarks.BookmarkManager.AddBookmark: one `now` stands for the two `Date.now()` reads (the id and `lastVisited`).
- **In-place update in `recordVisit`**: `bookmark.visitCount++` changes an object that `getAllBookmarks` may have handed out. The model replaces the list element and does not capture aliasing with the handed-out list.
- **The unreachable `catch` in `getFaviconUrl`**: `extractDomain` catches its own errors and the generators cannot throw on strings.
- **Prototype keys in `getSpecialCaseFavicon`**: the table is a plain object, so a domain such as `constructor` would find an inherited member in JavaScript. The model answers None for every domain outside the ten entries.
- **`loadBookmarks` and `sendMessageToBackground`**, together with the constructor's un-awaited call of `loadBookmarks`. These are I/O over the extension messaging API, local storage and JSON.
- **`saveBookmarks`' write to local storage**: it is the ghost snapshot, and a storage failure, which the source ignores, is not modelled.
- **The background page's message listener, `chrome.bookmarks.getTree` and the install listener**: extension API plumbing.
- **Case mapping**: `toLowerCase` is modelled on ASCII letters only.
- **Numbers**: sizes, times, hours and days are integers. Fractional values, NaN and the sort comparator on non-numeric `dateAdded` values are not modelled.
- **Shared formatting**: `formatHours`, `formatMinutes` and `formatSeconds` have the same body, so they are one function, `FormatTwoDigits`.
- **The clock**: `new Date()` and `Date.now()` are parameters. `Clock.js`, `BookmarkSidebar.js` and `main.js` (UI timers, DOM and wiring) are not part of this model.
