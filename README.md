# linkscrubber, modelled in Dafny

linkscrubber cleans up a pinboard.in bookmark collection. It walks the saved
bookmarks and probes each link with an HTTP `HEAD` request. When a link answers
with a 3xx redirect that carries a `location` header, it re-saves the bookmark
under the new URL, keeping its description, extended text, tags and date. It
then deletes the old post, unless running add-only or as a dry run.

There are three variants of this pipeline:

- the library function `process_bookmarks` (`linkscrubber/processing.py`);
- the `redirects` command (`linkscrubber/cmd/redirects.py`);
- the original stand-alone `main` (`linkscrubber/main.py`).

Two smaller commands list the distinct sites of all bookmarks
(`linkscrubber/cmd/sites.py`) and lower-case tags
(`linkscrubber/cmd/tags.py`).

## How the program is modelled

- `Basics` holds the data:
  - bookmarks;
  - probe answers (`Responded(Response(status, location))` or `Raised`);
  - update entries;
  - queues, as `seq<Option<T>>` with `None` as the sentinel.

  `Drain` gives the real items a worker takes before the first sentinel.
- `Urls` computes `urlparse(href).netloc` with a simplified parser. It splits
  off a scheme and takes the text after `//` up to the first `/`, `?` or `#`.
  It is proved to give back `host` for every `scheme://host/...`.
- `Regex` covers the part of Python's `re` that the default host patterns use.
  - `Compile` is `re.compile` and is proved to invert `Render`.
  - `Matches` is `re.match`, anchored at the start only.
- `Client` is the pinboard client, a class with these members:
  - a ghost log `calls` of every `add`, `delete` and `rename_tag`;
  - a `script` of outcomes, one per call;
  - a call beyond the end of the script succeeds.
- `Processing` models `processing.py`:
  - the enumeration (`GetBookmarks`) proved against `PutsOf`/`Visited`;
  - the prober (`CheckBookmarksWorker`) proved against `Probe`;
  - the probers one after another on the shared queue (`ProbeStage`, against `Stage`);
  - the live update worker (`UpdateWorker`, against `Update`);
  - the dry-run worker;
  - `process_bookmarks` itself.
- `Redirects` models `cmd/redirects.py`. It reuses the prober, update worker and
  dry-run worker of `Processing`, because the two files' workers are the same
  statement for statement (only log texts differ).
- `Legacy` models `main.py`: its enumeration, its update worker and `main`.
  Its prober is the one of `Processing`, since Python 2's `/` on integers
  rounds down like `//` (`LegacyRedirectTest`).
- `Sites` and `Tags` model the two smaller commands.

Threads become one sequential schedule:

1. enumeration fills the bookmark queue;
2. one sentinel per prober is appended;
3. the probers run one after another, each continuing where the previous one
   stopped;
4. one sentinel goes on the update queue;
5. the update (or dry-run) worker drains it.

This is the order that `join` forces on the sentinels in all three variants.

Quirks of the code that are stated as lemmas:

- `StaleResponseReused`: in the prober, a `requests.head` that raises leaves
  the previous iteration's `response` bound, so the earlier redirect's
  location is reused for the later bookmark.
- `ProbeCrash`: if the first probe of a prober raises, `response` is unbound,
  the thread dies and it never calls `task_done`.
- `FailedDateRepeats`: a date whose fetch failed in `main.py` re-filters the
  previous date's posts. If the first date fails, `_get_bookmarks` raises out
  of `main`.
- `LegacyCrashAtEnd`, `LegacyFailedDeleteEnds`: the `main.py` update worker
  lets a failing `delete` end the thread.
- `LegacyReportsNothing`: it always reports 0 updates.
- `FeedsportalNeedsLeadingDot`: the default host pattern `\.feedsportal\.com`
  can only match a host that starts with `.`, because `re.match` anchors at
  the start.
- `TcoMatchesPrefix`: `t\.co` keeps every host that merely begins with `t.co`.

## Model

| member | source | states |
|---|---|---|
| Basics.Drain | linkscrubber/processing.py:73-76 | a worker takes exactly the items before the first `None`; the sentinel is the item right after them |
| Basics.DrainWrapped | linkscrubber/processing.py:202-208 | a sentinel put after the real items hides everything behind it: the worker drains exactly the real items |
| Basics.Prefix | linkscrubber/processing.py:118 | `time_parsed[:3]`: the first three fields, or all of a shorter tuple |
| Urls.Netloc | linkscrubber/processing.py:58 | the netloc never holds `/`, `?` or `#` |
| Urls.NetlocOfUrl | linkscrubber/processing.py:58-59 | for a valid scheme, a host without delimiters and a tail that starts with one, the netloc of `scheme://host tail` is exactly `host` |
| Urls.ExampleNetloc | tests/test_get_bookmarks.py:6-23 | the netloc of `http://example.com/blah` is `example.com` |
| Client.BookmarkClient.Add | linkscrubber/processing.py:113-119 | logs one `add` with exactly these arguments, succeeds as scripted, uses one outcome |
| Client.BookmarkClient.Delete | linkscrubber/processing.py:127 | logs one `delete` of the URL, succeeds as scripted, uses one outcome |
| Client.BookmarkClient.RenameTag | linkscrubber/cmd/tags.py:24 | logs one `rename_tag(old, new)`, succeeds as scripted, uses one outcome |
| Processing.SiteSet | linkscrubber/processing.py:43 | `set(sites)` holds exactly the listed sites |
| Processing.PutKept | linkscrubber/processing.py:53-63 | the inner loop puts exactly the kept posts of the date, in order, and `kept` counts them |
| Processing.GetBookmarks | linkscrubber/processing.py:38-68 | the dates requested are the first `Visited` dates and the puts are those dates' kept posts in date order |
| Processing.KeptOfMembers | linkscrubber/processing.py:54-63 | a post is put iff it is among the date's posts and (`check_all` or its host is a site) |
| Processing.KeptOfCount | linkscrubber/processing.py:54-63 | each kept post is put as often as it occurs, a dropped one never |
| Processing.KeptOfCheckAll | linkscrubber/processing.py:55-56 | with `check_all` every post is put, in order, whatever the sites |
| Processing.PutsOfOrder | linkscrubber/processing.py:46-63 | the puts are the filtered concatenation of the fetched posts, dates in order |
| Processing.PutsOfCheckAll | linkscrubber/processing.py:55-56 | with `check_all` every post of every visited, fetched date is put |
| Processing.AllPostsMembers | linkscrubber/processing.py:46-52 | a post is among the fetched posts iff some date's fetch succeeded and returned it |
| Processing.PutsOfMembers | linkscrubber/processing.py:46-63 | a bookmark is put iff some date's fetch returned it and it passes the filter |
| Processing.SiteFilter | linkscrubber/processing.py:55-59 | with `check_all` false, a bookmark is put iff its host is in `sites` and some date returned it |
| Processing.VisitedAll | linkscrubber/processing.py:46-68 | without stop-early every date is visited |
| Processing.VisitedStops | linkscrubber/processing.py:64-68 | under stop-early no earlier date was fetched-and-kept-nothing; when dates remain, the last visited one was |
| Processing.FailedDateSkipped | linkscrubber/processing.py:48-52 | a date whose fetch raised never stops the walk: the next date is visited |
| Processing.FailedDatePutsNothing | linkscrubber/processing.py:48-52 | a date whose fetch raised puts nothing |
| Processing.OneDateOnePost | linkscrubber/processing.py:46-68 | one date with one post: it is visited and the post is put iff it passes the filter |
| Processing.TestNoSiteMatch | tests/test_get_bookmarks.py:6-23 | a host not among the sites is not put |
| Processing.TestSiteMatch | tests/test_get_bookmarks.py:26-46 | a host among the sites is put |
| Processing.TestStopEarly | tests/test_get_bookmarks.py:49-66 | with stop-early a date keeping nothing ends the walk with nothing put |
| Processing.TestCheckAll | tests/test_get_bookmarks.py:69-89 | with `check_all` the post is put although its host is not a site |
| Processing.RedirectStatuses | linkscrubber/processing.py:84 | `status_code // 100 == 3` holds exactly for 300..399 |
| Processing.Classify | linkscrubber/processing.py:84-94 | an update entry is made iff the status is 3xx and there is a location, and then it is (bookmark, location) |
| Processing.Probe | linkscrubber/processing.py:73-95 | the prober's loop on a queue never takes more items than the queue holds |
| Processing.CheckBookmarksWorker | linkscrubber/processing.py:71-95 | the loop's updates, items taken, `task_done` calls and exit are those of `Probe` with `response` initially unbound |
| Processing.ProbeBoundNeverCrashes | linkscrubber/processing.py:78-84 | once `response` is bound the prober never raises |
| Processing.ProbeCrash | linkscrubber/processing.py:78-84 | the prober raises iff its first probe raises with `response` unbound; it has then taken one item and done nothing else |
| Processing.ProbeDrains | linkscrubber/processing.py:73-95 | unless it raises, a prober takes the items up to and including the sentinel and calls `task_done` once per bookmark |
| Processing.ProbeUpdatesFrom | linkscrubber/processing.py:78-92 | every entry is for a drained bookmark, with a location some probe of the run (or the earlier binding) redirected to |
| Processing.ProbeAllRespond | linkscrubber/processing.py:78-94 | when no probe raises, the entries are exactly the per-bookmark reference classification |
| Processing.StaleResponseReused | linkscrubber/processing.py:78-84 | a probe that raises after a 301 reuses the 301's location for the next bookmark |
| Processing.OneProbe | linkscrubber/processing.py:84-94 | a single probe yields an entry iff it answered 3xx with a location |
| Processing.NextProber | linkscrubber/processing.py:71-95 | one prober thread on the shared queue, started where the previous one stopped, leaves the stage's bookkeeping for the remaining probers |
| Processing.ProbeStage | linkscrubber/processing.py:202-207 | the probers working one after another on the shared queue compute `Stage` |
| Processing.StageOnSentinels | linkscrubber/processing.py:202-204 | probers that find only sentinels each take one and put nothing |
| Processing.FirstProber | linkscrubber/processing.py:71-95 | on the puts followed by sentinels, with no probe raising, the first prober puts the reference classification and stops right after the first sentinel |
| Processing.StageAllRespond | linkscrubber/processing.py:193-207 | with at least one prober and no probe raising, the stage puts the reference classification of the puts and takes every item |
| Processing.StageUpdatesFromPuts | linkscrubber/processing.py:193-207 | every update entry is for a bookmark enumeration put |
| Processing.AddFor | linkscrubber/processing.py:113-119 | the add uses the new URL, the old description, extended text and tags, and `time_parsed[:3]` |
| Processing.Update | linkscrubber/processing.py:103-133 | the update worker's loop makes no call exactly when the queue is empty or starts with the sentinel |
| Processing.Replace | linkscrubber/processing.py:112-132 | one entry: the add, and the delete of the old URL when the add succeeded outside add-only mode; each call uses one scripted outcome |
| Processing.UpdateWorker | linkscrubber/processing.py:98-134 | the calls, remaining outcomes, `num_updates` and exit are those of `Update` on the scripted outcomes |
| Processing.UpdateDrains | linkscrubber/processing.py:103-133 | every entry up to the sentinel is counted in `num_updates`, whatever fails; the loop ends on the sentinel iff there is one |
| Processing.UpdateAdds | linkscrubber/processing.py:112-121 | exactly one add per entry, in queue order, whatever fails |
| Processing.UpdateAddOnly | linkscrubber/processing.py:124 | add-only mode makes only the adds, no delete |
| Processing.UpdateDeleteAt | linkscrubber/processing.py:122-130 | a delete comes only right after a successful add, only outside add-only mode, and removes that entry's old URL |
| Processing.UpdateAddAt | linkscrubber/processing.py:122-127 | every successful add outside add-only mode is followed by a delete |
| Processing.UpdateAllSucceed | linkscrubber/processing.py:112-132 | when nothing fails, each entry becomes add(new) then delete(old), in order |
| Processing.TestReplace | tests/test_update_worker.py:6-33 | the test's entry gives add with date `[2013, 3, 31]`, then delete of the old URL |
| Processing.TestAddOnly | tests/test_update_worker.py:36-61 | in add-only mode the test's entry gives only the add |
| Processing.DryRunWorker | linkscrubber/processing.py:137-147 | one (old, new) report per entry up to the sentinel, in order; no client call |
| Processing.UpdateQueueSentinel | linkscrubber/processing.py:208 | with the single sentinel after all entries, the update worker counts every entry and ends on the sentinel |
| Processing.RunWorkers | linkscrubber/processing.py:200-210 | one sentinel per prober after the puts, the stage's entries then one sentinel on the update queue, then the dry-run or live worker |
| Processing.ProcessBookmarks | linkscrubber/processing.py:150-210 | `dates()` raising aborts with no call; otherwise the queues and client calls are those of enumeration, stage and update worker |
| Regex.Compile | linkscrubber/cmd/redirects.py:120 | `re.compile` on the subset: each pattern element uses at least one character of the text, exactly one when there is no escape or repetition; a text starting with an unsupported character is refused |
| Regex.Matches | linkscrubber/cmd/redirects.py:152 | `re.match`: the empty pattern matches every host, and the match is anchored at the host's first character |
| Regex.CompileRender | linkscrubber/cmd/redirects.py:120 | every pattern of the subset compiles back from its text |
| Regex.MatchesExtends | linkscrubber/cmd/redirects.py:152 | `re.match` with a pattern without `$` that matches a host also matches every extension of it |
| Regex.LiteralMatches | linkscrubber/cmd/redirects.py:152 | `re.match` with a plain literal is a prefix test (both directions) |
| Regex.MatchesLeadingLiteral | linkscrubber/cmd/redirects.py:152 | a pattern starting with a literal character matches only hosts starting with it |
| Redirects.CompileFeeds | linkscrubber/cmd/redirects.py:50 | `^feeds?\.` compiles to start, `feed`, optional `s`, `.` |
| Redirects.CompileFeedsportal | linkscrubber/cmd/redirects.py:51 | `\.feedsportal\.com` compiles to the literal `.feedsportal.com` |
| Redirects.CompileTco | linkscrubber/cmd/redirects.py:52 | `t\.co` compiles to the literal `t.co` |
| Redirects.CompileLy | linkscrubber/cmd/redirects.py:53 | `.*\.ly$` compiles to any-run, `.ly`, end |
| Redirects.CompileLnkd | linkscrubber/cmd/redirects.py:54 | `lnkd\.in` compiles to the literal `lnkd.in` |
| Redirects.CompileRedht | linkscrubber/cmd/redirects.py:55 | `red\.ht` compiles to the literal `red.ht` |
| Redirects.CompileNyti | linkscrubber/cmd/redirects.py:56 | `nyti\.ms` compiles to the literal `nyti.ms` |
| Redirects.DefaultsCompile | linkscrubber/cmd/redirects.py:49-57 | each default `--redirect-site-regex` text compiles to the pattern at the same position |
| Redirects.CompileWordDotWord | linkscrubber/cmd/redirects.py:52-56 | `a\.b` for plain words compiles to the literal `a.b` |
| Redirects.WordDotWordMatches | linkscrubber/cmd/redirects.py:52-56 | such a pattern matches a host iff the host begins with `a.b` |
| Redirects.TcoMatchesPrefix | linkscrubber/cmd/redirects.py:52 | `t\.co` matches a host iff it begins with `t.co` |
| Redirects.FeedsportalNeedsLeadingDot | linkscrubber/cmd/redirects.py:51 | `\.feedsportal\.com` matches only hosts that begin with `.` |
| Redirects.FeedsMatchesFeedburner | linkscrubber/cmd/redirects.py:50 | `^feeds?\.` matches `feeds.feedburner.com` |
| Redirects.LyMatchesBitly | linkscrubber/cmd/redirects.py:53 | `.*\.ly$` matches `bit.ly` |
| Redirects.AnyMatchIff | linkscrubber/cmd/redirects.py:152 | `any(r.match(host) for r in regexes)` holds iff some pattern matches |
| Redirects.GetBookmarks | linkscrubber/cmd/redirects.py:135-160 | the puts are the selected posts, in order, and `kept` counts them |
| Redirects.SelectedMembers | linkscrubber/cmd/redirects.py:144-158 | a post is put iff it is among the posts and passes the keep test |
| Redirects.SiteOrPattern | linkscrubber/cmd/redirects.py:147-153 | with `check_all` false, put iff the host is a site or some pattern matches it at its start |
| Redirects.SelectedCheckAll | linkscrubber/cmd/redirects.py:145-146 | with `check_all` every post is put, in order |
| Redirects.SelectedCount | linkscrubber/cmd/redirects.py:144-158 | each kept post is put as often as it occurs, a dropped one never |
| Redirects.DefaultsKeepFeedburner | linkscrubber/cmd/redirects.py:40-57 | under the default sites and patterns a FeedBurner link is kept |
| Redirects.TakeAction | linkscrubber/cmd/redirects.py:73-132 | `posts()` raising ends with no call; otherwise the queues and calls are those of selection, stage and update worker |
| Legacy.LatestBound | linkscrubber/main.py:155-160 | once the first date's fetch succeeded, `bookmarks` stays bound |
| Legacy.LegacyGetBookmarks | linkscrubber/main.py:145-171 | raises iff the first date's fetch fails; otherwise every date is requested and the puts are `LegacyPutsOf` |
| Legacy.LegacyAgreesWithoutFailures | linkscrubber/main.py:153-169 | when no fetch fails, the old loop puts what the current one puts without stop-early |
| Legacy.FailedDateRepeats | linkscrubber/main.py:155-160 | a failed date after a good one puts the good one's kept posts a second time |
| Legacy.LegacyPutsOfMembers | linkscrubber/main.py:153-169 | a bookmark is put iff some date returned it and it passes the filter |
| Legacy.LegacyRedirectTest | linkscrubber/main.py:186 | Python 2's `status_code / 100 == 3` agrees with `//` and holds exactly for 300..399 |
| Legacy.LegacyUpdate | linkscrubber/main.py:201-220 | the old update worker's loop makes no call exactly when the queue is empty or starts with the sentinel |
| Legacy.LegacyReplace | linkscrubber/main.py:208-219 | one entry: the add, and the delete when the add succeeded; a crash iff that delete raised |
| Legacy.LegacyUpdateWorker | linkscrubber/main.py:197-220 | the calls, remaining outcomes, `num_updates` and exit are those of `LegacyUpdate` on the scripted outcomes |
| Legacy.LegacyReportsNothing | linkscrubber/main.py:201-220 | the reported `num_updates` is always 0 |
| Legacy.LegacyDeleteAt | linkscrubber/main.py:208-219 | a delete comes only right after a successful add and removes that entry's old URL |
| Legacy.LegacyAddAt | linkscrubber/main.py:218-219 | every successful add is followed by a delete |
| Legacy.LegacyCrashAtEnd | linkscrubber/main.py:219 | when the thread dies, its last call is a delete that raised |
| Legacy.LegacyFailedDeleteEnds | linkscrubber/main.py:219 | a delete that raises is the last call and the thread dies |
| Legacy.LegacyDrains | linkscrubber/main.py:202-217 | unless a delete raised, one add per entry in queue order, ending on the sentinel iff there is one |
| Legacy.LegacyAllSucceed | linkscrubber/main.py:208-219 | when nothing fails, each entry is replaced as by the current worker and the thread does not die |
| Legacy.LegacyMain | linkscrubber/main.py:236-309 | `dates()` raising or the first fetch failing ends with no call and the script untouched; otherwise `numWorkers` sentinels, stage, one sentinel, the worker, and return 0; a dry run reports each drained entry's href and new URL, in order, and makes no call; a live run makes the calls of `LegacyUpdate` and uses one scripted outcome per call |
| Sites.BelowIrreflexive | linkscrubber/cmd/sites.py:25 | no string sorts before itself |
| Sites.BelowTransitive | linkscrubber/cmd/sites.py:25 | the string order is transitive |
| Sites.BelowTotal | linkscrubber/cmd/sites.py:25 | two different strings are ordered one way or the other |
| Sites.SortedList | linkscrubber/cmd/sites.py:25 | `sorted(set)`: exactly the set's elements, strictly ascending, one each |
| Sites.AscendingDistinct | linkscrubber/cmd/sites.py:25 | an ascending list holds no string twice |
| Sites.CollectHosts | linkscrubber/cmd/sites.py:18-21 | the loop's set is exactly the hosts of the bookmarks |
| Sites.Rows | linkscrubber/cmd/sites.py:22-25 | each site becomes a 1-tuple, in order |
| Sites.ListSites | linkscrubber/cmd/sites.py:13-25 | header `('Site',)`; 1-tuple rows strictly ascending; every bookmark's host is a row and every row is some bookmark's host |
| Sites.HostsListed | linkscrubber/cmd/sites.py:18-25 | every bookmark's host has a row |
| Sites.ListedHosts | linkscrubber/cmd/sites.py:18-25 | every row is the host of some bookmark |
| Sites.ListedOnce | linkscrubber/cmd/sites.py:18-25 | no site is listed twice |
| Tags.LowerChar | linkscrubber/cmd/tags.py:20 | the result is never an upper-case letter; upper-case letters move by 32, others stay |
| Tags.Lower | linkscrubber/cmd/tags.py:20 | `tag.lower()` lowers each character in place |
| Tags.LowerFixed | linkscrubber/cmd/tags.py:20-21 | a tag equals its lower-case form iff it has no upper-case letter |
| Tags.LowerIdempotent | linkscrubber/cmd/tags.py:20-24 | a rename target is already lower-case, so it would not be renamed again |
| Tags.SameLetterLower | linkscrubber/cmd/tags.py:20 | two characters get the same `lower()` iff they are equal or an ASCII capital and its small letter |
| Tags.SameTarget | linkscrubber/cmd/tags.py:7 | two tags are the same except for capitalization (position by position equal, or a capital against its small letter) iff they get the same lower-case form |
| Tags.RenamePlanMembers | linkscrubber/cmd/tags.py:19-24 | `rename_tag(t, u)` is planned iff `t` is listed, `t.lower() != t` and `u == t.lower()` |
| Tags.RenamePlanTargets | linkscrubber/cmd/tags.py:20-24 | every planned call is a rename to the tag's lower-case form, never to itself |
| Tags.RenamePlanConcat | linkscrubber/cmd/tags.py:18-19 | renames follow the order of the tags |
| Tags.IssuedPrefix | linkscrubber/cmd/tags.py:23-24 | the calls made are a prefix of the plan: all of it when every rename succeeds, else ending with the rename that raised |
| Tags.IssuedAllSucceed | linkscrubber/cmd/tags.py:19-24 | a client that never fails gets every planned rename |
| Tags.Canonicalize | linkscrubber/cmd/tags.py:12-24 | dry run makes no call; otherwise the calls are the plan up to the first rename that raises |
| Tags.ExampleTwoSpellings | linkscrubber/cmd/tags.py:18-24 | `Python` and `PYTHON` are both renamed to `python`, in order; `python` is left alone |

## Left out

- Threads and blocking:
  - Threads, daemon flags, `join` and `task_done` bookkeeping are replaced by
    one sequential schedule.
  - A prober that dies leaves the remaining items to the others. In the
    sequential schedule those items are then worked by the next prober.
  - A `get()` on an empty queue blocks for ever; here it ends the loop as
    `QueueEmpty`.
  - Interleavings in which probers see items in a different order are not
    modelled. In the threaded program, which prober takes which bookmark
    decides whose stale `response` a raising `requests.head` reuses
    (`StaleResponseReused`) and which prober dies with `UnboundLocalError`
    (`ProbeCrash`). In the model both follow from the fixed sequential
    schedule, in which each prober continues where the previous one stopped.
- I/O:
  - Logging, argument parsing, `cliff` plumbing and credentials are not
    modelled.
  - `_get_client` and the pinboard library are replaced by `Client`.
  - The `append` action adding to, rather than replacing, the default
    `--redirect-site` and `--redirect-site-regex` lists is argument parsing
    and is not modelled; the lists are parameters.
- Network and remote answers are parameters:
  - `requests.head` is a deterministic function `net` from bookmark to probe
    answer.
  - The answers of `dates()`, `posts(date=...)` and `posts()` are given up
    front, with `None` for a call that raised.
  - `client.posts()` raising in the `sites` command ends it with an exception;
    `ListSites` takes the posts.
  - `client.tags()` raising in the `tags` command ends it with an exception;
    `Canonicalize` takes the tag names.
- `Urls.Netloc`: a simplified parser, not the whole of `urlsplit`. Among
  the cases not modelled:
  - a netloc with a `[` and no `]`, or the reverse, makes `urlsplit` raise
    `ValueError`, which nothing catches, so the command ends; the model
    returns the text as the netloc;
  - recent Python 3 releases remove tab, CR and LF from the URL and strip
    leading spaces and control characters; the model does not;
  - Python 2's `urlsplit` also splits off a scheme that starts with a digit,
    `+`, `-` or `.`; the model requires a letter first, as current Python 3
    releases do;
  - for a unicode href (Python 2.7.17 and later, and every Python 3),
    `urlsplit` raises `ValueError` when the NFKC form of a non-ASCII netloc
    holds `/`, `?`, `#`, `@` or `:`, as in `http://a\uff0fb.com/`; nothing
    catches it, so the command ends; the model returns the netloc as it
    stands, because it has no Unicode normalisation;
  - recent Python 3 releases (3.11.4 and later) raise `ValueError` for a
    bracketed host that is not an IPv6 or IPvFuture address; the model
    returns the text.

  `processing.py` and `cmd/redirects.py` try Python 2's `urlparse` module
  first and fall back to `urllib.parse`; `main.py` and `cmd/sites.py` import
  `urlparse` outright. On the Python 2.7 the package declares, all four use
  Python 2's parser.
- Regular expressions:
  - Only the subset the default patterns use is covered: literals, escapes,
    `.`, `^`, `$`, and `?`/`*` on one character.
  - `Redirects.TakeAction` takes compiled patterns. A user pattern outside the
    subset (`Compile` gives `None`) is not modelled, nor is `re.compile`
    raising.
- `Tags.Lower`: only ASCII letters are lowered. Python's `str.lower` also
  lowers non-ASCII letters; that is left out because it needs the Unicode
  tables.
- Sentinels: `if not bm` / `if not update` is modelled as a test for the
  `None` sentinel only. An empty bookmark dict would also stop a worker; the
  pinboard client never returns one.
- `Legacy.LegacyMain`: `num_workers` is a `nat`. A negative
  `--num-workers` makes no threads in Python, the same as 0.
- `Processing.ProcessBookmarks`: states `num_updates` and the dry-run reports
  through `RunWorkers` and `UpdateDrains`, not in its own contract.
  `Redirects.TakeAction` does the same.
- `Processing.DryRunWorker`: the report lines stand for log messages; their
  text is not modelled.
