/** linkscrubber/processing.py: the bookmark source with its stop-early rule,
    the redirect prober, the live and dry-run update workers, and the order in
    which `process_bookmarks` feeds the two queues and their sentinels.
    Threads are replaced by one sequential schedule: enumeration, then the
    probers one after another on the shared bookmark queue, then the single
    update worker. */
module Processing {
  import opened Basics
  import opened Urls
  import opened Client

  /** The number of prober threads. */
  const NUM_WORKERS: nat := 4

  // ---------------------------------------------------------------------
  // Bookmark enumeration (`_get_bookmarks`)
  // ---------------------------------------------------------------------

  /** One entry of `client.dates()` with the answer of `client.posts(date=...)`
      for it: the posts, or `None` when that call raised. */
  datatype Day = Day(date: string, posts: Option<seq<Bookmark>>)

  /** `set(sites)`. */
  function SiteSet(sites: seq<string>): (s: set<string>)
    ensures forall x :: x in s <==> x in sites
  {
    set x | x in sites
  }

  /** The keep decision for one post. */
  predicate Keep(bm: Bookmark, checkAll: bool, sites: set<string>) {
    checkAll || Netloc(bm.href) in sites
  }

  /** The posts of one date that are kept, in order. */
  function KeptOf(posts: seq<Bookmark>, checkAll: bool, sites: set<string>): (kept: seq<Bookmark>)
    ensures |kept| <= |posts|
  {
    if posts == [] then []
    else
      var init := posts[..|posts| - 1];
      var last := posts[|posts| - 1];
      assert posts == init + [last];
      KeptOf(init, checkAll, sites) + (if Keep(last, checkAll, sites) then [last] else [])
  }

  /** What one date contributes to the queue: nothing when its fetch failed. */
  function DayPuts(d: Day, checkAll: bool, sites: set<string>): seq<Bookmark> {
    match d.posts
    case None => []
    case Some(ps) => KeptOf(ps, checkAll, sites)
  }

  /** The puts of a run of dates, in date order. */
  function PutsOf(days: seq<Day>, checkAll: bool, sites: set<string>): seq<Bookmark> {
    if days == [] then []
    else PutsOf(days[..|days| - 1], checkAll, sites) + DayPuts(days[|days| - 1], checkAll, sites)
  }

  /** The dates of a run of days. */
  function DatesOf(days: seq<Day>): (dates: seq<string>)
    ensures |dates| == |days|
    ensures forall i :: 0 <= i < |days| ==> dates[i] == days[i].date
  {
    seq(|days|, i requires 0 <= i < |days| => days[i].date)
  }

  /** A date that ends the enumeration under stop-early: its posts were
      fetched and none of them was kept. */
  predicate Barren(d: Day, checkAll: bool, sites: set<string>) {
    d.posts.Some? && KeptOf(d.posts.value, checkAll, sites) == []
  }

  /** How many dates, counted from the first, are visited when the dates
      before `i` have been visited without stopping. */
  function VisitedFrom(days: seq<Day>, i: nat, stopEarly: bool, checkAll: bool, sites: set<string>): (n: nat)
    requires i <= |days|
    ensures i <= n <= |days|
    decreases |days| - i
  {
    if i == |days| then i
    else if stopEarly && Barren(days[i], checkAll, sites) then i + 1
    else VisitedFrom(days, i + 1, stopEarly, checkAll, sites)
  }

  /** The number of dates `_get_bookmarks` visits. */
  function Visited(days: seq<Day>, stopEarly: bool, checkAll: bool, sites: set<string>): nat {
    VisitedFrom(days, 0, stopEarly, checkAll, sites)
  }

  /** The inner loop of `_get_bookmarks` over one date's posts: the posts it
      puts, in order, and its `kept` counter. */
  method PutKept(bookmarks: seq<Bookmark>, checkAll: bool, siteSet: set<string>)
    returns (dayPuts: seq<Bookmark>, kept: nat)
    ensures dayPuts == KeptOf(bookmarks, checkAll, siteSet)
    ensures kept == |dayPuts|
  {
    dayPuts, kept := [], 0;
    var j := 0;
    while j < |bookmarks|
      invariant 0 <= j <= |bookmarks|
      invariant dayPuts == KeptOf(bookmarks[..j], checkAll, siteSet)
      invariant kept == |dayPuts|
    {
      var bm := bookmarks[j];
      assert bookmarks[..j + 1][..j] == bookmarks[..j] && bookmarks[..j + 1][j] == bm;
      var keep := if checkAll then true else Netloc(bm.href) in siteSet;
      if keep {
        dayPuts := dayPuts + [bm];
        kept := kept + 1;
      }
      j := j + 1;
    }
    assert bookmarks[..j] == bookmarks;
  }

  /** One more date appended to a run of dates. */
  lemma EnumerationStep(days: seq<Day>, i: nat, checkAll: bool, sites: set<string>)
    requires i < |days|
    ensures DatesOf(days[..i + 1]) == DatesOf(days[..i]) + [days[i].date]
    ensures PutsOf(days[..i + 1], checkAll, sites) == PutsOf(days[..i], checkAll, sites) + DayPuts(days[i], checkAll, sites)
  {
    assert days[..i + 1][..i] == days[..i];
  }

  /** `_get_bookmarks(client, queue, stop_early, check_all, sites)`: returns the
      bookmarks put on the queue, in order, and the dates whose posts were
      requested. */
  method GetBookmarks(days: seq<Day>, stopEarly: bool, checkAll: bool, sites: seq<string>)
    returns (puts: seq<Bookmark>, fetched: seq<string>)
    ensures var n := Visited(days, stopEarly, checkAll, SiteSet(sites));
      && fetched == DatesOf(days[..n])
      && puts == PutsOf(days[..n], checkAll, SiteSet(sites))
  {
    var siteSet := SiteSet(sites);
    ghost var n := Visited(days, stopEarly, checkAll, siteSet);
    puts, fetched := [], [];
    var i := 0;
    while i < |days|
      invariant 0 <= i <= |days|
      invariant n == VisitedFrom(days, i, stopEarly, checkAll, siteSet)
      invariant fetched == DatesOf(days[..i])
      invariant puts == PutsOf(days[..i], checkAll, siteSet)
    {
      var d := days[i];
      EnumerationStep(days, i, checkAll, siteSet);
      fetched := fetched + [d.date];
      if d.posts.None? {
        i := i + 1;
        continue;
      }
      var dayPuts, kept := PutKept(d.posts.value, checkAll, siteSet);
      puts := puts + dayPuts;
      i := i + 1;
      if kept == 0 && stopEarly {
        assert n == i;
        break;
      }
    }
    assert days[..|days|] == days;
  }

  // Properties of the enumeration

  /** A post is kept exactly when it is among the date's posts and passes the filter. */
  lemma {:induction false} KeptOfMembers(posts: seq<Bookmark>, checkAll: bool, sites: set<string>, b: Bookmark)
    ensures b in KeptOf(posts, checkAll, sites) <==> b in posts && Keep(b, checkAll, sites)
  {
    if posts != [] {
      var init := posts[..|posts| - 1];
      assert posts == init + [posts[|posts| - 1]];
      KeptOfMembers(init, checkAll, sites, b);
    }
  }

  /** Each post is put as many times as it occurs among the fetched posts when
      it passes the filter, and never otherwise. */
  lemma {:induction false} KeptOfCount(posts: seq<Bookmark>, checkAll: bool, sites: set<string>, b: Bookmark)
    ensures multiset(KeptOf(posts, checkAll, sites))[b] ==
      if Keep(b, checkAll, sites) then multiset(posts)[b] else 0
  {
    if posts != [] {
      var init := posts[..|posts| - 1];
      assert posts == init + [posts[|posts| - 1]];
      KeptOfCount(init, checkAll, sites, b);
    }
  }

  /** With `check_all` every post is kept, in order, whatever the sites are. */
  lemma {:induction false} KeptOfCheckAll(posts: seq<Bookmark>, sites: set<string>)
    ensures KeptOf(posts, true, sites) == posts
  {
    if posts != [] {
      var init := posts[..|posts| - 1];
      assert posts == init + [posts[|posts| - 1]];
      KeptOfCheckAll(init, sites);
    }
  }

  /** Filtering distributes over concatenation. */
  lemma {:induction false} KeptOfConcat(a: seq<Bookmark>, b: seq<Bookmark>, checkAll: bool, sites: set<string>)
    ensures KeptOf(a + b, checkAll, sites) == KeptOf(a, checkAll, sites) + KeptOf(b, checkAll, sites)
    decreases |b|
  {
    if b == [] {
      assert a + b == a;
    } else {
      var init := b[..|b| - 1];
      assert b == init + [b[|b| - 1]];
      assert a + b == (a + init) + [b[|b| - 1]];
      KeptOfConcat(a, init, checkAll, sites);
    }
  }

  /** The posts a date's fetch returned; none when it failed. */
  function DayPosts(d: Day): seq<Bookmark> {
    if d.posts.Some? then d.posts.value else []
  }

  /** The posts of the dates whose fetch succeeded, in date order. */
  function AllPosts(days: seq<Day>): seq<Bookmark> {
    if days == [] then [] else AllPosts(days[..|days| - 1]) + DayPosts(days[|days| - 1])
  }

  /** The puts are the fetched posts, dates in order and posts in order within
      a date, with the filtered-out ones removed. */
  lemma {:induction false} PutsOfOrder(days: seq<Day>, checkAll: bool, sites: set<string>)
    ensures PutsOf(days, checkAll, sites) == KeptOf(AllPosts(days), checkAll, sites)
  {
    if days != [] {
      var init := days[..|days| - 1];
      var last := days[|days| - 1];
      PutsOfOrder(init, checkAll, sites);
      KeptOfConcat(AllPosts(init), DayPosts(last), checkAll, sites);
      assert DayPuts(last, checkAll, sites) == KeptOf(DayPosts(last), checkAll, sites);
    }
  }

  /** With `check_all` every fetched post of every visited date is put. */
  lemma PutsOfCheckAll(days: seq<Day>, sites: set<string>)
    ensures PutsOf(days, true, sites) == AllPosts(days)
  {
    PutsOfOrder(days, true, sites);
    KeptOfCheckAll(AllPosts(days), sites);
  }

  /** `b` is among the fetched posts of date `k`. */
  predicate PostedOn(days: seq<Day>, k: int, b: Bookmark) {
    0 <= k < |days| && days[k].posts.Some? && b in days[k].posts.value
  }

  /** A post is among the fetched posts exactly when some date's fetch
      returned it. */
  lemma {:induction false} AllPostsMembers(days: seq<Day>, b: Bookmark)
    ensures b in AllPosts(days) <==> exists k :: PostedOn(days, k, b)
  {
    if days != [] {
      var init := days[..|days| - 1];
      var n := |days| - 1;
      AllPostsMembers(init, b);
      assert b in AllPosts(days) <==> b in AllPosts(init) || b in DayPosts(days[n]);
      if b in DayPosts(days[n]) {
        assert PostedOn(days, n, b);
      }
      if b in AllPosts(init) {
        var k :| PostedOn(init, k, b);
        assert PostedOn(days, k, b);
      }
      if exists k :: PostedOn(days, k, b) {
        var k :| PostedOn(days, k, b);
        if k < n {
          assert PostedOn(init, k, b);
        } else {
          assert b in DayPosts(days[n]);
        }
      }
    }
  }

  /** A bookmark is put exactly when some date's fetch returned it and it
      passes the filter. */
  lemma PutsOfMembers(days: seq<Day>, checkAll: bool, sites: set<string>, b: Bookmark)
    ensures b in PutsOf(days, checkAll, sites) <==>
      Keep(b, checkAll, sites) && exists k :: PostedOn(days, k, b)
  {
    PutsOfOrder(days, checkAll, sites);
    KeptOfMembers(AllPosts(days), checkAll, sites, b);
    AllPostsMembers(days, b);
  }

  /** With `check_all` false, a bookmark is put exactly when some date's
      fetch returned it and its host is one of the sites. */
  lemma SiteFilter(days: seq<Day>, sites: seq<string>, b: Bookmark)
    ensures b in PutsOf(days, false, SiteSet(sites)) <==>
      Netloc(b.href) in sites && exists k :: PostedOn(days, k, b)
  {
    PutsOfMembers(days, false, SiteSet(sites), b);
  }

  /** Without stop-early every date is visited. */
  lemma {:induction false} VisitedAll(days: seq<Day>, i: nat, checkAll: bool, sites: set<string>)
    requires i <= |days|
    ensures VisitedFrom(days, i, false, checkAll, sites) == |days|
    decreases |days| - i
  {
    if i < |days| {
      VisitedAll(days, i + 1, checkAll, sites);
    }
  }

  /** Under stop-early the enumeration ends right after the first date that was
      fetched and kept nothing: no earlier date is such a date, and when dates
      are left over, the last one visited is. */
  lemma {:induction false} VisitedStops(days: seq<Day>, i: nat, checkAll: bool, sites: set<string>)
    requires i <= |days|
    ensures var n := VisitedFrom(days, i, true, checkAll, sites);
      && (forall k :: i <= k < n - 1 ==> !Barren(days[k], checkAll, sites))
      && (n < |days| ==> i < n && Barren(days[n - 1], checkAll, sites))
    decreases |days| - i
  {
    if i < |days| && !Barren(days[i], checkAll, sites) {
      VisitedStops(days, i + 1, checkAll, sites);
      assert VisitedFrom(days, i, true, checkAll, sites) == VisitedFrom(days, i + 1, true, checkAll, sites);
    }
  }

  /** A date whose fetch failed never ends the enumeration: the next date is
      visited too. */
  lemma {:induction false} FailedDateSkipped(days: seq<Day>, i: nat, k: nat, stopEarly: bool, checkAll: bool, sites: set<string>)
    requires i <= k && k + 1 < |days|
    requires days[k].posts.None?
    requires k < VisitedFrom(days, i, stopEarly, checkAll, sites)
    ensures k + 1 < VisitedFrom(days, i, stopEarly, checkAll, sites)
    decreases |days| - i
  {
    if i < k {
      FailedDateSkipped(days, i + 1, k, stopEarly, checkAll, sites);
    }
  }

  /** A failed date contributes nothing to the queue. */
  lemma FailedDatePutsNothing(days: seq<Day>, i: nat, checkAll: bool, sites: set<string>)
    requires i < |days| && days[i].posts.None?
    ensures PutsOf(days[..i + 1], checkAll, sites) == PutsOf(days[..i], checkAll, sites)
  {
    EnumerationStep(days, i, checkAll, sites);
  }

  /** The bookmark of the enumeration tests. */
  const ExampleBookmark := Bookmark("http://example.com/blah", "example link", "", [], [])

  /** A listing of one date holding one post: that date is visited and the
      post is put exactly when it passes the filter. */
  lemma OneDateOnePost(date: string, bm: Bookmark, stopEarly: bool, checkAll: bool, sites: set<string>)
    ensures var days := [Day(date, Some([bm]))];
      var n := Visited(days, stopEarly, checkAll, sites);
      n == 1 && PutsOf(days[..n], checkAll, sites) == if Keep(bm, checkAll, sites) then [bm] else []
  {
    var days := [Day(date, Some([bm]))];
    assert [bm][..0] == [];
    assert KeptOf([bm], checkAll, sites) == if Keep(bm, checkAll, sites) then [bm] else [];
    assert days[..1] == days;
    assert days[..0] == [];
  }

  /** `test_no_site_match`: the host is not a site, so nothing is put. */
  lemma TestNoSiteMatch()
    ensures var days := [Day("ignored", Some([ExampleBookmark]))];
      var n := Visited(days, false, false, SiteSet(["feedproxy.google.com"]));
      n == 1 && PutsOf(days[..n], false, SiteSet(["feedproxy.google.com"])) == []
  {
    ExampleNetloc();
    assert !Keep(ExampleBookmark, false, SiteSet(["feedproxy.google.com"]));
    OneDateOnePost("ignored", ExampleBookmark, false, false, SiteSet(["feedproxy.google.com"]));
  }

  /** `test_site_match`: the host is a site, so the post is put. */
  lemma TestSiteMatch()
    ensures var days := [Day("ignored", Some([ExampleBookmark]))];
      var n := Visited(days, false, false, SiteSet(["example.com"]));
      n == 1 && PutsOf(days[..n], false, SiteSet(["example.com"])) == [ExampleBookmark]
  {
    ExampleNetloc();
    assert Keep(ExampleBookmark, false, SiteSet(["example.com"]));
    OneDateOnePost("ignored", ExampleBookmark, false, false, SiteSet(["example.com"]));
  }

  /** `test_stop_early`: the only date keeps nothing and ends the walk. */
  lemma TestStopEarly()
    ensures var days := [Day("ignored", Some([ExampleBookmark]))];
      var n := Visited(days, true, false, SiteSet(["feedproxy.google.com"]));
      n == 1 && PutsOf(days[..n], false, SiteSet(["feedproxy.google.com"])) == []
  {
    ExampleNetloc();
    assert !Keep(ExampleBookmark, false, SiteSet(["feedproxy.google.com"]));
    OneDateOnePost("ignored", ExampleBookmark, true, false, SiteSet(["feedproxy.google.com"]));
  }

  /** `test_check_all`: with `check_all` the post is put whatever the sites. */
  lemma TestCheckAll()
    ensures var days := [Day("ignored", Some([ExampleBookmark]))];
      var n := Visited(days, true, true, SiteSet(["feedproxy.google.com"]));
      n == 1 && PutsOf(days[..n], true, SiteSet(["feedproxy.google.com"])) == [ExampleBookmark]
  {
    OneDateOnePost("ignored", ExampleBookmark, true, true, SiteSet(["feedproxy.google.com"]));
  }

  // ---------------------------------------------------------------------
  // The prober (`_check_bookmarks_worker`)
  // ---------------------------------------------------------------------

  /** `status_code // 100 == 3`: a 3xx (redirection) status of section 15.4
      of RFC 9110. Dafny's `/` by a positive divisor rounds down like `//`. */
  predicate IsRedirect(status: int) {
    status / 100 == 3
  }

  /** The statuses the test accepts are exactly 300 to 399. */
  lemma RedirectStatuses(status: int)
    ensures IsRedirect(status) <==> 300 <= status <= 399
  {
    if status < 300 {
      assert status / 100 <= 2;
    } else if status >= 400 {
      assert status / 100 >= 4;
    }
  }

  /** The queue entry made for a bookmark tested with response `r`: one
      exactly when `r` is a redirect that carries a `location` header
      (section 10.2.2 of RFC 9110), and then that location. */
  function Classify(bm: Bookmark, r: Response): (u: Option<UpdateItem>)
    ensures u.Some? <==> IsRedirect(r.status) && r.location.Some?
    ensures u.Some? ==> u.value.bookmark == bm && Some(u.value.newUrl) == r.location
  {
    if IsRedirect(r.status) then
      match r.location
      case None => None
      case Some(loc) => Some(UpdateItem(bm, loc))
    else None
  }

  function OptionSeq<T>(o: Option<T>): (s: seq<T>)
    ensures |s| <= 1
    ensures o.None? ==> s == []
    ensures o.Some? ==> s == [o.value]
  {
    if o.Some? then [o.value] else []
  }

  /** What one prober does with a queue: the entries it puts on the update
      queue, how many items it takes off the bookmark queue (the sentinel
      included), how often it calls `task_done`, and how it ends. */
  datatype ProbeRun = ProbeRun(updates: seq<UpdateItem>, consumed: nat, tasksDone: nat, exit: Exit)

  /** The response the status test sees after probing `bm` when `last` was
      bound before: a raised probe leaves the old binding in place. */
  function After(last: Option<Response>, answer: ProbeResult): Option<Response> {
    match answer
    case Responded(r) => Some(r)
    case Raised => last
  }

  /** The prober's loop on queue `q` with `response` bound to `last` (or
      unbound). Referring to an unbound `response` raises and ends the
      thread after the item has been taken. */
  function Probe(q: seq<Option<Bookmark>>, net: Bookmark -> ProbeResult, last: Option<Response>): (run: ProbeRun)
    ensures run.consumed <= |q|
    decreases |q|
  {
    if q == [] then ProbeRun([], 0, 0, QueueEmpty)
    else if q[0].None? then ProbeRun([], 1, 0, SawSentinel)
    else
      var bm := q[0].value;
      match After(last, net(bm))
      case None => ProbeRun([], 1, 0, Crashed)
      case Some(r) =>
        var rest := Probe(q[1..], net, Some(r));
        ProbeRun(OptionSeq(Classify(bm, r)) + rest.updates, rest.consumed + 1, rest.tasksDone + 1, rest.exit)
  }

  /** A run that first did `updates`, `consumed` and `tasksDone` and then `rest`. */
  function Then(updates: seq<UpdateItem>, consumed: nat, tasksDone: nat, rest: ProbeRun): ProbeRun {
    ProbeRun(updates + rest.updates, consumed + rest.consumed, tasksDone + rest.tasksDone, rest.exit)
  }

  /** Proof helper: two `Then` steps combine into one. */
  lemma ThenThen(u: seq<UpdateItem>, c: nat, t: nat, v: seq<UpdateItem>, d: nat, e: nat, rest: ProbeRun)
    ensures Then(u, c, t, Then(v, d, e, rest)) == Then(u + v, c + d, t + e, rest)
  {
    assert u + (v + rest.updates) == (u + v) + rest.updates;
  }

  /** One real item taken by a prober whose binding after the probe is `r`. */
  lemma ProbeStep(q: seq<Option<Bookmark>>, i: nat, net: Bookmark -> ProbeResult, last: Option<Response>, r: Response)
    requires i < |q| && q[i].Some?
    requires After(last, net(q[i].value)) == Some(r)
    ensures Probe(q[i..], net, last) ==
      Then(OptionSeq(Classify(q[i].value, r)), 1, 1, Probe(q[i + 1..], net, Some(r)))
  {
    assert q[i..][1..] == q[i + 1..];
  }

  /** `_check_bookmarks_worker(bookmark_queue, update_queue)` on a queue whose
      contents are given up front; `net` answers each `requests.head`. */
  method CheckBookmarksWorker(q: seq<Option<Bookmark>>, net: Bookmark -> ProbeResult)
    returns (updates: seq<UpdateItem>, consumed: nat, tasksDone: nat, exit: Exit)
    ensures ProbeRun(updates, consumed, tasksDone, exit) == Probe(q, net, None)
  {
    var response: Option<Response> := None;
    updates, consumed, tasksDone := [], 0, 0;
    while true
      invariant consumed <= |q|
      invariant Probe(q, net, None) == Then(updates, consumed, tasksDone, Probe(q[consumed..], net, response))
      decreases |q| - consumed
    {
      if consumed == |q| {
        exit := QueueEmpty;
        return;
      }
      var bm := q[consumed];
      if bm.None? {
        consumed := consumed + 1;
        exit := SawSentinel;
        return;
      }
      ghost var before := response;
      var answer := net(bm.value);
      if answer.Responded? {
        response := Some(answer.response);
      }
      if response.None? {
        consumed := consumed + 1;
        exit := Crashed;
        return;
      }
      var r := response.value;
      ProbeStep(q, consumed, net, before, r);
      ghost var here := OptionSeq(Classify(bm.value, r));
      ThenThen(updates, consumed, tasksDone, here, 1, 1, Probe(q[consumed + 1..], net, response));
      if r.status / 100 == 3 && r.location.Some? {
        assert here == [UpdateItem(bm.value, r.location.value)];
        updates := updates + [UpdateItem(bm.value, r.location.value)];
      } else {
        assert here == [];
        assert updates + here == updates;
      }
      consumed := consumed + 1;
      tasksDone := tasksDone + 1;
    }
  }

  /** Once a response has been bound the prober never crashes. */
  lemma {:induction false} ProbeBoundNeverCrashes(q: seq<Option<Bookmark>>, net: Bookmark -> ProbeResult, r: Response)
    ensures Probe(q, net, Some(r)).exit != Crashed
    decreases |q|
  {
    if q != [] && q[0].Some? {
      ProbeBoundNeverCrashes(q[1..], net, After(Some(r), net(q[0].value)).value);
    }
  }

  /** The prober crashes exactly when its very first probe raises: `response`
      is then unbound. It has taken that one item and done nothing else. */
  lemma ProbeCrash(q: seq<Option<Bookmark>>, net: Bookmark -> ProbeResult, last: Option<Response>)
    ensures Probe(q, net, last).exit == Crashed <==>
      last.None? && q != [] && q[0].Some? && net(q[0].value).Raised?
    ensures Probe(q, net, last).exit == Crashed ==> Probe(q, net, last) == ProbeRun([], 1, 0, Crashed)
  {
    if q != [] && q[0].Some? {
      match After(last, net(q[0].value))
      case None =>
      case Some(r) => ProbeBoundNeverCrashes(q[1..], net, r);
    }
  }

  /** Unless it crashes, the prober takes every item up to and including the
      first sentinel, calls `task_done` once per real item, and ends on the
      sentinel exactly when there is one. */
  lemma {:induction false} ProbeDrains(q: seq<Option<Bookmark>>, net: Bookmark -> ProbeResult, last: Option<Response>)
    ensures var run := Probe(q, net, last);
      var items := Drain(q);
      run.exit != Crashed ==>
        && run.tasksDone == |items|
        && run.consumed == (if |items| < |q| then |items| + 1 else |items|)
        && (run.exit == SawSentinel <==> |items| < |q|)
        && (run.exit == QueueEmpty <==> |items| == |q|)
    decreases |q|
  {
    if q != [] && q[0].Some? {
      match After(last, net(q[0].value))
      case None =>
      case Some(r) => ProbeDrains(q[1..], net, Some(r));
    }
  }

  /** `answer` is a redirect to `url`. */
  predicate RedirectsTo(answer: ProbeResult, url: string) {
    answer.Responded? && IsRedirect(answer.response.status) && answer.response.location == Some(url)
  }

  /** Every update entry is for a bookmark the prober took, and its new URL is
      a redirect location that some probe of this run returned, or the one
      bound before the run started. */
  lemma {:induction false} ProbeUpdatesFrom(q: seq<Option<Bookmark>>, net: Bookmark -> ProbeResult, last: Option<Response>, u: UpdateItem)
    requires u in Probe(q, net, last).updates
    ensures u.bookmark in Drain(q)
    ensures (last.Some? && IsRedirect(last.value.status) && last.value.location == Some(u.newUrl))
      || exists k :: 0 <= k < |Drain(q)| && RedirectsTo(net(Drain(q)[k]), u.newUrl)
    decreases |q|
  {
    var bm := q[0].value;
    var r := After(last, net(bm)).value;
    var rest := Probe(q[1..], net, Some(r));
    assert Drain(q) == [bm] + Drain(q[1..]);
    if u in OptionSeq(Classify(bm, r)) {
      if net(bm).Responded? {
        assert RedirectsTo(net(Drain(q)[0]), u.newUrl);
      }
    } else {
      assert u in rest.updates;
      ProbeUpdatesFrom(q[1..], net, Some(r), u);
      if !(IsRedirect(r.status) && r.location == Some(u.newUrl)) {
        var k :| 0 <= k < |Drain(q[1..])| && RedirectsTo(net(Drain(q[1..])[k]), u.newUrl);
        assert Drain(q)[k + 1] == Drain(q[1..])[k];
      } else if net(bm).Responded? {
        assert RedirectsTo(net(Drain(q)[0]), u.newUrl);
      }
    }
  }

  predicate AllRespond(items: seq<Bookmark>, net: Bookmark -> ProbeResult) {
    forall k :: 0 <= k < |items| ==> net(items[k]).Responded?
  }

  /** The reference classification: each bookmark judged by its own response,
      in order. */
  function RedirectsOf(items: seq<Bookmark>, net: Bookmark -> ProbeResult): (updates: seq<UpdateItem>)
    ensures |updates| <= |items|
  {
    if items == [] then []
    else
      var here := match net(items[0])
        case Raised => []
        case Responded(r) => OptionSeq(Classify(items[0], r));
      here + RedirectsOf(items[1..], net)
  }

  /** When no probe raises, the stale binding never matters: the prober puts
      exactly the reference classification of the items it drains. */
  lemma {:induction false} ProbeAllRespond(q: seq<Option<Bookmark>>, net: Bookmark -> ProbeResult, last: Option<Response>)
    requires AllRespond(Drain(q), net)
    ensures Probe(q, net, last).exit != Crashed
    ensures Probe(q, net, last).updates == RedirectsOf(Drain(q), net)
    decreases |q|
  {
    if q != [] && q[0].Some? {
      var items := Drain(q);
      assert items == [q[0].value] + Drain(q[1..]);
      assert net(items[0]).Responded?;
      assert AllRespond(Drain(q[1..]), net) by {
        forall k | 0 <= k < |Drain(q[1..])| ensures net(Drain(q[1..])[k]).Responded? {
          assert Drain(q[1..])[k] == items[k + 1];
        }
      }
      ProbeAllRespond(q[1..], net, Some(net(q[0].value).response));
      assert items[1..] == Drain(q[1..]);
    }
  }

  /** The stale-response quirk: a probe that raises after a redirect re-uses
      the earlier redirect's location for the later bookmark. */
  lemma StaleResponseReused(a: Bookmark, b: Bookmark, loc: string, net: Bookmark -> ProbeResult)
    requires net(a) == Responded(Response(301, Some(loc)))
    requires net(b) == Raised
    ensures Probe([Some(a), Some(b), None], net, None) ==
      ProbeRun([UpdateItem(a, loc), UpdateItem(b, loc)], 3, 2, SawSentinel)
  {
    var q := [Some(a), Some(b), None];
    var r := Response(301, Some(loc));
    assert IsRedirect(r.status);
    assert q[2..] == [None];
    var third := Probe(q[2..], net, Some(r));
    assert third == ProbeRun([], 1, 0, SawSentinel);
    ProbeStep(q, 1, net, Some(r), r);
    assert OptionSeq(Classify(b, r)) == [UpdateItem(b, loc)];
    var second := Probe(q[1..], net, Some(r));
    assert second == ProbeRun([UpdateItem(b, loc)], 2, 1, SawSentinel);
    ProbeStep(q, 0, net, None, r);
    assert OptionSeq(Classify(a, r)) == [UpdateItem(a, loc)];
    assert q[0..] == q;
  }

  /** A single probe: a redirect with a location gives that entry, anything
      else gives none. */
  lemma OneProbe(bm: Bookmark, r: Response, net: Bookmark -> ProbeResult)
    requires net(bm) == Responded(r)
    ensures Probe([Some(bm), None], net, None).updates ==
      if IsRedirect(r.status) && r.location.Some? then [UpdateItem(bm, r.location.value)] else []
  {
    var q := [Some(bm), None];
    assert q[1..] == [None];
  }

  // ---------------------------------------------------------------------
  // The probers one after another on the shared bookmark queue
  // ---------------------------------------------------------------------

  /** The combined update entries of `workers` probers and how many items they
      took from the bookmark queue. */
  datatype StageRun = StageRun(updates: seq<UpdateItem>, consumed: nat)

  /** `workers` probers, each with an unbound `response`, run one after the
      other on the queue from position `c` on: each continues where the
      previous one stopped. */
  function StageFrom(q: seq<Option<Bookmark>>, c: nat, net: Bookmark -> ProbeResult, workers: nat): (run: StageRun)
    requires c <= |q|
    ensures c + run.consumed <= |q|
    decreases workers
  {
    if workers == 0 then StageRun([], 0)
    else
      var first := Probe(q[c..], net, None);
      var rest := StageFrom(q, c + first.consumed, net, workers - 1);
      StageRun(first.updates + rest.updates, first.consumed + rest.consumed)
  }

  function Stage(q: seq<Option<Bookmark>>, net: Bookmark -> ProbeResult, workers: nat): StageRun {
    StageFrom(q, 0, net, workers)
  }

  /** Loop bookkeeping of the stage: the whole stage is what the probers so
      far did followed by what the remaining ones do. */
  predicate StageTracks(total: StageRun, updates: seq<UpdateItem>, consumed: nat, rest: StageRun) {
    total.updates == updates + rest.updates && total.consumed == consumed + rest.consumed
  }

  /** The bookkeeping carried over one prober, whose run is `first`. */
  lemma StageAdvance(q: seq<Option<Bookmark>>, c: nat, net: Bookmark -> ProbeResult, workers: nat, total: StageRun,
                     updates: seq<UpdateItem>, first: ProbeRun)
    requires c <= |q| && workers > 0
    requires first == Probe(q[c..], net, None)
    requires StageTracks(total, updates, c, StageFrom(q, c, net, workers))
    ensures c + first.consumed <= |q|
    ensures StageTracks(total, updates + first.updates, c + first.consumed, StageFrom(q, c + first.consumed, net, workers - 1))
  {
    var rest := StageFrom(q, c + first.consumed, net, workers - 1);
    assert updates + (first.updates + rest.updates) == (updates + first.updates) + rest.updates;
  }

  /** The bookkeeping once no prober is left. */
  lemma StageStop(q: seq<Option<Bookmark>>, c: nat, net: Bookmark -> ProbeResult, total: StageRun, updates: seq<UpdateItem>)
    requires c <= |q|
    requires StageTracks(total, updates, c, StageFrom(q, c, net, 0))
    ensures total == StageRun(updates, c)
  {
    assert updates + [] == updates;
  }

  /** One prober of the stage, starting where the previous one stopped. */
  method NextProber(q: seq<Option<Bookmark>>, net: Bookmark -> ProbeResult, workers: nat, ghost total: StageRun,
                    updates: seq<UpdateItem>, consumed: nat)
    returns (updates': seq<UpdateItem>, consumed': nat)
    requires consumed <= |q| && workers > 0
    requires StageTracks(total, updates, consumed, StageFrom(q, consumed, net, workers))
    ensures consumed' <= |q|
    ensures StageTracks(total, updates', consumed', StageFrom(q, consumed', net, workers - 1))
  {
    var more, taken, tasksDone, exit := CheckBookmarksWorker(q[consumed..], net);
    StageAdvance(q, consumed, net, workers, total, updates, ProbeRun(more, taken, tasksDone, exit));
    updates', consumed' := updates + more, consumed + taken;
  }

  /** The prober threads of `process_bookmarks`, scheduled one after another. */
  method ProbeStage(q: seq<Option<Bookmark>>, net: Bookmark -> ProbeResult, workers: nat)
    returns (updates: seq<UpdateItem>, consumed: nat)
    ensures StageRun(updates, consumed) == Stage(q, net, workers)
  {
    ghost var total := Stage(q, net, workers);
    updates, consumed := [], 0;
    assert [] + total.updates == total.updates;
    var k := 0;
    while k < workers
      invariant k <= workers && consumed <= |q|
      invariant StageTracks(total, updates, consumed, StageFrom(q, consumed, net, workers - k))
    {
      updates, consumed := NextProber(q, net, workers - k, total, updates, consumed);
      k := k + 1;
    }
    StageStop(q, consumed, net, total, updates);
  }

  /** Probers facing only sentinels each take one and put nothing. */
  lemma {:induction false} StageOnSentinels(q: seq<Option<Bookmark>>, c: nat, net: Bookmark -> ProbeResult, workers: nat)
    requires c + workers <= |q|
    requires forall i :: c <= i < c + workers ==> q[i] == None
    ensures StageFrom(q, c, net, workers) == StageRun([], workers)
    decreases workers
  {
    if workers > 0 {
      assert q[c..][0] == None;
      StageOnSentinels(q, c + 1, net, workers - 1);
    }
  }

  /** On the bookmark queue of `process_bookmarks` (the puts, then one
      sentinel per prober), when no probe raises and there is a prober, the
      probers put exactly the reference classification of the puts and take
      every item, every sentinel included. */
  lemma StageAllRespond(puts: seq<Bookmark>, net: Bookmark -> ProbeResult, workers: nat)
    requires workers >= 1
    requires AllRespond(puts, net)
    ensures var q := Wrap(puts) + Sentinels(workers);
      Stage(q, net, workers) == StageRun(RedirectsOf(puts, net), |q|)
  {
    var q := Wrap(puts) + Sentinels(workers);
    var others := Sentinels<Bookmark>(workers - 1);
    assert q == Wrap(puts) + [None] + others;
    assert q[0..] == q;
    FirstProber(puts, net, others);
    StageOnSentinels(q, |puts| + 1, net, workers - 1);
    assert RedirectsOf(puts, net) + [] == RedirectsOf(puts, net);
  }

  /** The first prober on such a queue puts the reference classification and
      stops after the first sentinel. */
  lemma FirstProber(puts: seq<Bookmark>, net: Bookmark -> ProbeResult, others: seq<Option<Bookmark>>)
    requires AllRespond(puts, net)
    ensures Probe(Wrap(puts) + [None] + others, net, None).updates == RedirectsOf(puts, net)
    ensures Probe(Wrap(puts) + [None] + others, net, None).consumed == |puts| + 1
  {
    var q := Wrap(puts) + [None] + others;
    DrainWrapped(puts, others);
    ProbeAllRespond(q, net, None);
    ProbeDrains(q, net, None);
  }

  /** Every update entry of the stage is for a bookmark that was on the queue. */
  lemma {:induction false} StageUpdatesFrom(q: seq<Option<Bookmark>>, c: nat, net: Bookmark -> ProbeResult, workers: nat, u: UpdateItem)
    requires c <= |q|
    requires u in StageFrom(q, c, net, workers).updates
    ensures Some(u.bookmark) in q
    decreases workers
  {
    var first := Probe(q[c..], net, None);
    if u in first.updates {
      ProbeUpdatesFrom(q[c..], net, None, u);
      var i :| 0 <= i < |Drain(q[c..])| && Drain(q[c..])[i] == u.bookmark;
      assert q[c + i] == Some(u.bookmark);
    } else {
      StageUpdatesFrom(q, c + first.consumed, net, workers - 1, u);
    }
  }

  /** In `process_bookmarks`, every update entry is for a bookmark that
      enumeration put. */
  lemma StageUpdatesFromPuts(puts: seq<Bookmark>, net: Bookmark -> ProbeResult, workers: nat, u: UpdateItem)
    requires u in Stage(Wrap(puts) + Sentinels(workers), net, workers).updates
    ensures u.bookmark in puts
  {
    var q := Wrap(puts) + Sentinels<Bookmark>(workers);
    StageUpdatesFrom(q, 0, net, workers, u);
    var i :| 0 <= i < |q| && q[i] == Some(u.bookmark);
    assert i < |puts| && puts[i] == u.bookmark;
  }

  // ---------------------------------------------------------------------
  // The update worker (`_update_worker`)
  // ---------------------------------------------------------------------

  /** The `client.add` call made for an update entry: the new URL with the
      old post's description, extended text and tags, and the first three
      fields (year, month, day) of its time. */
  function AddFor(u: UpdateItem): (c: Call)
    ensures c.Add? && c.url == u.newUrl && c.description == u.bookmark.description
    ensures c.extended == u.bookmark.extended && c.tags == u.bookmark.tags
    ensures c.date == Prefix(u.bookmark.timeParsed, 3)
  {
    Call.Add(u.newUrl, u.bookmark.description, u.bookmark.extended, u.bookmark.tags, Prefix(u.bookmark.timeParsed, 3))
  }

  /** The calls made for one entry: the add, then the delete of the old URL
      when the add succeeded and deleting is wanted. */
  function StepCalls(u: UpdateItem, added: bool, addOnly: bool): seq<Call> {
    if added && !addOnly then [AddFor(u), Call.Delete(u.bookmark.href)] else [AddFor(u)]
  }

  /** What the update worker does with a queue: the client calls it makes, the
      `num_updates` it reports and how it ends. */
  datatype UpdateRun = UpdateRun(calls: seq<Call>, numUpdates: nat, exit: Exit)

  /** Loop bookkeeping of the update workers: the whole run is the calls made
      and updates counted so far followed by the run on what is left. */
  predicate Tracks(run: UpdateRun, made: seq<Call>, n: nat, rest: UpdateRun) {
    run.calls == made + rest.calls && run.numUpdates == n + rest.numUpdates && run.exit == rest.exit
  }

  /** The update worker's loop on queue `q` with the client answering by
      `script`. No failure ends the loop. */
  function Update(q: seq<Option<UpdateItem>>, script: seq<bool>, addOnly: bool): (run: UpdateRun)
    ensures run.calls == [] <==> q == [] || q[0].None?
    decreases |q|
  {
    if q == [] then UpdateRun([], 0, QueueEmpty)
    else if q[0].None? then UpdateRun([], 0, SawSentinel)
    else
      var step := StepCalls(q[0].value, OutcomeAt(script, 0), addOnly);
      var rest := Update(q[1..], Consume(script, |step|), addOnly);
      UpdateRun(step + rest.calls, rest.numUpdates + 1, rest.exit)
  }

  /** One real entry taken by the update worker: its calls are made with the
      script as it stands and the rest of the loop continues on what is left. */
  lemma UpdateStep(q: seq<Option<UpdateItem>>, i: nat, script: seq<bool>, addOnly: bool, made: seq<Call>, n: nat)
    requires i < |q| && q[i].Some?
    ensures var step := StepCalls(q[i].value, OutcomeAt(script, 0), addOnly);
      var here := Update(q[i..], script, addOnly);
      var rest := Update(q[i + 1..], Consume(script, |step|), addOnly);
      && made + here.calls == (made + step) + rest.calls
      && n + here.numUpdates == (n + 1) + rest.numUpdates
      && here.exit == rest.exit
  {
    assert q[i..][1..] == q[i + 1..];
    var step := StepCalls(q[i].value, OutcomeAt(script, 0), addOnly);
    var rest := Update(q[i + 1..], Consume(script, |step|), addOnly);
    assert made + (step + rest.calls) == (made + step) + rest.calls;
  }

  /** The loop's bookkeeping carried over one real entry. */
  lemma UpdateAdvance(q: seq<Option<UpdateItem>>, i: nat, script: seq<bool>, addOnly: bool, run: UpdateRun, made: seq<Call>, n: nat)
    requires i < |q| && q[i].Some?
    requires Tracks(run, made, n, Update(q[i..], script, addOnly))
    ensures var step := StepCalls(q[i].value, OutcomeAt(script, 0), addOnly);
      Tracks(run, made + step, n + 1, Update(q[i + 1..], Consume(script, |step|), addOnly))
  {
    UpdateStep(q, i, script, addOnly, made, n);
  }

  /** The loop's bookkeeping where the loop stops: the end of the queue or a
      sentinel. */
  lemma UpdateStop(q: seq<Option<UpdateItem>>, i: nat, script: seq<bool>, addOnly: bool, run: UpdateRun, made: seq<Call>, n: nat)
    requires i <= |q| && (i == |q| || q[i].None?)
    requires Tracks(run, made, n, Update(q[i..], script, addOnly))
    ensures run == UpdateRun(made, n, if i == |q| then QueueEmpty else SawSentinel)
  {
    assert made + [] == made;
  }

  /** The body of the worker's loop for one entry: the add, then the delete
      of the old URL when the add succeeded and deleting is wanted. */
  method Replace(client: BookmarkClient, u: UpdateItem, addOnly: bool) returns (added: bool)
    modifies client
    ensures var step := StepCalls(u, OutcomeAt(old(client.script), 0), addOnly);
      && client.calls == old(client.calls) + step
      && client.script == Consume(old(client.script), |step|)
      && added == OutcomeAt(old(client.script), 0)
  {
    ghost var before := client.script;
    var bm := u.bookmark;
    added := client.Add(u.newUrl, bm.description, bm.extended, bm.tags, Prefix(bm.timeParsed, 3));
    if added && !addOnly {
      var deleted := client.Delete(bm.href);
      ConsumeTwice(before, 1, 1);
    }
  }

  /** `_update_worker(client, update_queue, add_only)`. */
  method UpdateWorker(client: BookmarkClient, q: seq<Option<UpdateItem>>, addOnly: bool)
    returns (numUpdates: nat, exit: Exit)
    modifies client
    ensures var run := Update(q, old(client.script), addOnly);
      && client.calls == old(client.calls) + run.calls
      && client.script == Consume(old(client.script), |run.calls|)
      && numUpdates == run.numUpdates && exit == run.exit
  {
    ghost var start := client.script;
    ghost var run := Update(q, start, addOnly);
    ghost var made: seq<Call> := [];
    numUpdates := 0;
    var i := 0;
    assert q[0..] == q && [] + run.calls == run.calls;
    while i < |q| && q[i].Some?
      invariant i <= |q|
      invariant client.calls == old(client.calls) + made
      invariant client.script == Consume(start, |made|)
      invariant Tracks(run, made, numUpdates, Update(q[i..], client.script, addOnly))
      decreases |q| - i
    {
      var update := q[i].value;
      ghost var step := StepCalls(update, OutcomeAt(client.script, 0), addOnly);
      UpdateAdvance(q, i, client.script, addOnly, run, made, numUpdates);
      var _ := Replace(client, update, addOnly);
      ConsumeTwice(start, |made|, |step|);
      AppendTwice(old(client.calls), made, step);
      made := made + step;
      numUpdates := numUpdates + 1;
      i := i + 1;
    }
    UpdateStop(q, i, client.script, addOnly, run, made, numUpdates);
    exit := if i == |q| then QueueEmpty else SawSentinel;
  }

  /** The update worker takes every entry up to the first sentinel, counts
      each one in `num_updates` whatever its calls' outcomes, and ends on the
      sentinel exactly when there is one. */
  lemma {:induction false} UpdateDrains(q: seq<Option<UpdateItem>>, script: seq<bool>, addOnly: bool)
    ensures var run := Update(q, script, addOnly);
      && run.numUpdates == |Drain(q)|
      && (run.exit == SawSentinel <==> |Drain(q)| < |q|)
      && (run.exit == QueueEmpty <==> |Drain(q)| == |q|)
    decreases |q|
  {
    if q != [] && q[0].Some? {
      var step := StepCalls(q[0].value, OutcomeAt(script, 0), addOnly);
      UpdateDrains(q[1..], Consume(script, |step|), addOnly);
    }
  }

  /** The add calls among `calls`, in order. */
  function AddsOf(calls: seq<Call>): seq<Call> {
    if calls == [] then []
    else (if calls[0].Add? then [calls[0]] else []) + AddsOf(calls[1..])
  }

  lemma {:induction false} AddsOfConcat(a: seq<Call>, b: seq<Call>)
    ensures AddsOf(a + b) == AddsOf(a) + AddsOf(b)
  {
    if a == [] {
      assert a + b == b;
    } else {
      assert (a + b)[1..] == a[1..] + b;
      AddsOfConcat(a[1..], b);
    }
  }

  /** The add calls meant for a run of entries, one per entry. */
  function AddsFor(items: seq<UpdateItem>): (adds: seq<Call>)
    ensures |adds| == |items|
    ensures forall k :: 0 <= k < |items| ==> adds[k] == AddFor(items[k])
  {
    seq(|items|, k requires 0 <= k < |items| => AddFor(items[k]))
  }

  /** One entry's calls hold exactly one add, its own. */
  lemma StepAdds(u: UpdateItem, added: bool, addOnly: bool)
    ensures AddsOf(StepCalls(u, added, addOnly)) == [AddFor(u)]
  {
    var step := StepCalls(u, added, addOnly);
    if |step| == 2 {
      assert step[1..] == [Call.Delete(u.bookmark.href)];
      assert AddsOf(step[1..]) == [] + AddsOf([]);
    } else {
      assert step[1..] == [];
    }
  }

  /** The adds meant for a queue that starts with a real entry. */
  lemma AddsForDrain(q: seq<Option<UpdateItem>>)
    requires q != [] && q[0].Some?
    ensures AddsFor(Drain(q)) == [AddFor(q[0].value)] + AddsFor(Drain(q[1..]))
  {
  }

  /** Exactly one add is made per entry, in queue order, whatever fails. */
  lemma {:induction false} UpdateAdds(q: seq<Option<UpdateItem>>, script: seq<bool>, addOnly: bool)
    ensures AddsOf(Update(q, script, addOnly).calls) == AddsFor(Drain(q))
    decreases |q|
  {
    if q != [] && q[0].Some? {
      var u := q[0].value;
      var step := StepCalls(u, OutcomeAt(script, 0), addOnly);
      var rest := Update(q[1..], Consume(script, |step|), addOnly);
      UpdateAdds(q[1..], Consume(script, |step|), addOnly);
      AddsOfConcat(step, rest.calls);
      StepAdds(u, OutcomeAt(script, 0), addOnly);
      AddsForDrain(q);
    }
  }

  /** In add-only mode the worker only adds: one add per entry, no delete. */
  lemma {:induction false} UpdateAddOnly(q: seq<Option<UpdateItem>>, script: seq<bool>)
    ensures Update(q, script, true).calls == AddsFor(Drain(q))
    decreases |q|
  {
    if q != [] && q[0].Some? {
      UpdateAddOnly(q[1..], Consume(script, 1));
      assert AddsFor(Drain(q)) == [AddFor(q[0].value)] + AddsFor(Drain(q[1..]));
    }
  }

  /** A delete is made only right after an add that succeeded, only when not
      in add-only mode, and it removes the old URL of that add's entry. */
  lemma UpdateDeleteAt(q: seq<Option<UpdateItem>>, script: seq<bool>, addOnly: bool, k: nat)
    requires k < |Update(q, script, addOnly).calls|
    requires Update(q, script, addOnly).calls[k].Delete?
    ensures var calls := Update(q, script, addOnly).calls;
      && !addOnly && 0 < k && OutcomeAt(script, k - 1)
      && exists u :: u in Drain(q) && calls[k - 1] == AddFor(u) && calls[k] == Call.Delete(u.bookmark.href)
  {
    var u := DeletedEntry(q, script, addOnly, k);
  }

  /** The entry whose delete the call at `k` is. */
  lemma {:induction false} DeletedEntry(q: seq<Option<UpdateItem>>, script: seq<bool>, addOnly: bool, k: nat) returns (u: UpdateItem)
    requires k < |Update(q, script, addOnly).calls|
    requires Update(q, script, addOnly).calls[k].Delete?
    ensures var calls := Update(q, script, addOnly).calls;
      && !addOnly && 0 < k && OutcomeAt(script, k - 1) && u in Drain(q)
      && calls[k - 1] == AddFor(u) && calls[k] == Call.Delete(u.bookmark.href)
    decreases |q|
  {
    var head := q[0].value;
    var step := StepCalls(head, OutcomeAt(script, 0), addOnly);
    var script' := Consume(script, |step|);
    var rest := Update(q[1..], script', addOnly).calls;
    var calls := step + rest;
    assert Drain(q) == [head] + Drain(q[1..]);
    if k < |step| {
      assert k == 1 && calls[0] == AddFor(head) && calls[1] == Call.Delete(head.bookmark.href);
      assert OutcomeAt(script, 0);
      u := head;
    } else {
      var j := k - |step|;
      assert calls[k] == rest[j];
      u := DeletedEntry(q[1..], script', addOnly, j);
      ConsumeOutcome(script, |step|, j - 1);
      assert |step| + (j - 1) == k - 1;
      assert calls[k - 1] == rest[j - 1];
    }
  }

  /** Every add that succeeds outside add-only mode is followed by a delete. */
  lemma {:induction false} UpdateAddAt(q: seq<Option<UpdateItem>>, script: seq<bool>, addOnly: bool, k: nat)
    requires k < |Update(q, script, addOnly).calls|
    requires Update(q, script, addOnly).calls[k].Add?
    requires !addOnly && OutcomeAt(script, k)
    ensures k + 1 < |Update(q, script, addOnly).calls|
    ensures Update(q, script, addOnly).calls[k + 1].Delete?
    decreases |q|
  {
    var u := q[0].value;
    var step := StepCalls(u, OutcomeAt(script, 0), addOnly);
    var rest := Update(q[1..], Consume(script, |step|), addOnly);
    var calls := step + rest.calls;
    if k >= |step| {
      assert calls[k] == rest.calls[k - |step|];
      ConsumeOutcome(script, |step|, k - |step|);
      UpdateAddAt(q[1..], Consume(script, |step|), addOnly, k - |step|);
      assert calls[k + 1] == rest.calls[k - |step| + 1];
    }
  }

  /** The calls of a run in which nothing fails: for each entry in order, the
      add of the new URL and then the delete of the old one. */
  function Replacements(items: seq<UpdateItem>): (calls: seq<Call>)
    ensures |calls| == 2 * |items|
  {
    if items == [] then []
    else [AddFor(items[0]), Call.Delete(items[0].bookmark.href)] + Replacements(items[1..])
  }

  /** When every call succeeds and deleting is wanted, each bookmark is
      replaced: added under its new URL, then deleted under its old one. */
  lemma {:induction false} UpdateAllSucceed(q: seq<Option<UpdateItem>>)
    ensures Update(q, [], false).calls == Replacements(Drain(q))
    decreases |q|
  {
    if q != [] && q[0].Some? {
      UpdateAllSucceed(q[1..]);
      assert Drain(q)[1..] == Drain(q[1..]);
    }
  }

  /** The entry of the update worker tests. */
  const ReplaceItem := UpdateItem(
    Bookmark("http://example.com/blah", "example link", "extended", ["tag1", "tag2"], [2013, 3, 31, 9, 9, 9]),
    "http://newlink.com/blah")

  /** `test_replace`: the new post is added with the date cut to three
      fields, then the old one deleted. */
  lemma TestReplace()
    ensures Update([Some(ReplaceItem), None], [], false).calls == [
      Call.Add("http://newlink.com/blah", "example link", "extended", ["tag1", "tag2"], [2013, 3, 31]),
      Call.Delete("http://example.com/blah")]
  {
    var q := [Some(ReplaceItem), None];
    assert q[1..] == [None];
    assert Prefix(ReplaceItem.bookmark.timeParsed, 3) == [2013, 3, 31];
  }

  /** `test_add_only`: the new post is added and nothing is deleted. */
  lemma TestAddOnly()
    ensures Update([Some(ReplaceItem), None], [], true).calls == [
      Call.Add("http://newlink.com/blah", "example link", "extended", ["tag1", "tag2"], [2013, 3, 31])]
  {
    var q := [Some(ReplaceItem), None];
    assert q[1..] == [None];
    assert Prefix(ReplaceItem.bookmark.timeParsed, 3) == [2013, 3, 31];
  }

  // ---------------------------------------------------------------------
  // The dry-run worker (`_dry_run_worker`)
  // ---------------------------------------------------------------------

  /** A `DRY RUN changing <old> to <new>` line. */
  datatype Report = Report(oldUrl: string, newUrl: string)

  /** `_dry_run_worker(update_queue)`: one report per entry up to the
      sentinel; it has no client to call. */
  method DryRunWorker(q: seq<Option<UpdateItem>>) returns (reports: seq<Report>, exit: Exit)
    ensures |reports| == |Drain(q)|
    ensures forall k :: 0 <= k < |reports| ==>
      reports[k] == Report(Drain(q)[k].bookmark.href, Drain(q)[k].newUrl)
    ensures exit == if |Drain(q)| < |q| then SawSentinel else QueueEmpty
  {
    reports := [];
    var i := 0;
    while true
      invariant i <= |q| && |reports| == i
      invariant forall k :: 0 <= k < i ==> q[k].Some?
      invariant forall k :: 0 <= k < i ==> reports[k] == Report(q[k].value.bookmark.href, q[k].value.newUrl)
      decreases |q| - i
    {
      if i == |q| {
        exit := QueueEmpty;
        return;
      }
      var update := q[i];
      if update.None? {
        exit := SawSentinel;
        return;
      }
      var bm, newUrl := update.value.bookmark, update.value.newUrl;
      reports := reports + [Report(bm.href, newUrl)];
      i := i + 1;
    }
  }

  // ---------------------------------------------------------------------
  // `process_bookmarks`: the queues and sentinels as one sequential trace
  // ---------------------------------------------------------------------

  /** The update worker facing the update queue of the pipeline (every entry
      the probers made, then one sentinel) counts every entry and ends on the
      sentinel. */
  lemma UpdateQueueSentinel(updates: seq<UpdateItem>, script: seq<bool>, addOnly: bool)
    ensures Drain(Wrap(updates) + [None]) == updates
    ensures Update(Wrap(updates) + [None], script, addOnly).numUpdates == |updates|
    ensures Update(Wrap(updates) + [None], script, addOnly).exit == SawSentinel
  {
    DrainWrapped(updates, []);
    assert Wrap(updates) + [None] + [] == Wrap(updates) + [None];
    UpdateDrains(Wrap(updates) + [None], script, addOnly);
  }

  /** After enumeration: one sentinel per prober on the bookmark queue, the
      probers run to the end, then one sentinel on the update queue and the
      live or dry-run update worker. */
  method RunWorkers(client: BookmarkClient, puts: seq<Bookmark>, net: Bookmark -> ProbeResult, workers: nat,
                    dryRun: bool, addOnly: bool)
    returns (bookmarkQueue: seq<Option<Bookmark>>, updateQueue: seq<Option<UpdateItem>>,
             reports: seq<Report>, numUpdates: nat)
    modifies client
    ensures bookmarkQueue == Wrap(puts) + Sentinels(workers)
    ensures updateQueue == Wrap(Stage(bookmarkQueue, net, workers).updates) + [None]
    ensures dryRun ==> client.calls == old(client.calls) && client.script == old(client.script)
    ensures dryRun ==> numUpdates == 0 && |reports| == |Drain(updateQueue)|
    ensures dryRun ==> forall k :: 0 <= k < |reports| ==>
      reports[k] == Report(Drain(updateQueue)[k].bookmark.href, Drain(updateQueue)[k].newUrl)
    ensures !dryRun ==> var run := Update(updateQueue, old(client.script), addOnly);
      && reports == []
      && client.calls == old(client.calls) + run.calls
      && client.script == Consume(old(client.script), |run.calls|)
      && numUpdates == run.numUpdates
  {
    bookmarkQueue := Wrap(puts);
    var k := 0;
    while k < workers
      invariant k <= workers
      invariant bookmarkQueue == Wrap(puts) + Sentinels(k)
    {
      bookmarkQueue := bookmarkQueue + [None];
      k := k + 1;
      assert Sentinels<Bookmark>(k) == Sentinels<Bookmark>(k - 1) + [None];
    }
    var updates, taken := ProbeStage(bookmarkQueue, net, workers);
    updateQueue := Wrap(updates) + [None];
    var exit: Exit;
    if dryRun {
      reports, exit := DryRunWorker(updateQueue);
      numUpdates := 0;
    } else {
      reports := [];
      numUpdates, exit := UpdateWorker(client, updateQueue, addOnly);
    }
  }

  /** How `process_bookmarks` ends: `client.dates()` raised, or every thread
      finished. */
  datatype Outcome =
    | Aborted
    | Finished(fetched: seq<string>, bookmarkQueue: seq<Option<Bookmark>>,
               updateQueue: seq<Option<UpdateItem>>, reports: seq<Report>, numUpdates: nat)

  /** `process_bookmarks(...)`: `dates` is the answer of `client.dates()` with
      each date's posts (`None` when that call raised); `client` is the
      update client. */
  method ProcessBookmarks(client: BookmarkClient, dates: Option<seq<Day>>, net: Bookmark -> ProbeResult,
                          dryRun: bool, addOnly: bool, stopEarly: bool, allRedirects: bool,
                          redirectSites: seq<string>)
    returns (outcome: Outcome)
    modifies client
    ensures dates.None? ==> outcome == Aborted && client.calls == old(client.calls)
    ensures dates.Some? ==> outcome.Finished?
    ensures outcome.Finished? ==>
      var days := dates.value;
      var n := Visited(days, stopEarly, allRedirects, SiteSet(redirectSites));
      && outcome.fetched == DatesOf(days[..n])
      && outcome.bookmarkQueue == Wrap(PutsOf(days[..n], allRedirects, SiteSet(redirectSites))) + Sentinels(NUM_WORKERS)
      && outcome.updateQueue == Wrap(Stage(outcome.bookmarkQueue, net, NUM_WORKERS).updates) + [None]
      && (dryRun ==> client.calls == old(client.calls) && |outcome.reports| == |Drain(outcome.updateQueue)|)
      && (!dryRun ==> client.calls == old(client.calls) + Update(outcome.updateQueue, old(client.script), addOnly).calls)
  {
    if dates.None? {
      return Aborted;
    }
    var puts, fetched := GetBookmarks(dates.value, stopEarly, allRedirects, redirectSites);
    var bookmarkQueue, updateQueue, reports, numUpdates := RunWorkers(client, puts, net, NUM_WORKERS, dryRun, addOnly);
    outcome := Finished(fetched, bookmarkQueue, updateQueue, reports, numUpdates);
  }
}
