/** linkscrubber/cmd/redirects.py: the `redirects` command. Its bookmark
    source fetches every post in one call and keeps a post when every
    redirect is wanted, or its host is one of the redirect sites, or one of
    the host patterns matches at the start of the host. Its prober, update
    worker and dry-run worker are the ones of `Processing`, line for line. */
module Redirects {
  import opened Basics
  import opened Urls
  import opened Regex
  import opened Client
  import opened Processing

  /** The number of prober threads. */
  const NUM_WORKERS: nat := 4

  /** The default of `--redirect-site`. */
  const DefaultRedirectSites: seq<string> := ["feedproxy.google.com"]

  /** The default of `--redirect-site-regex`, as the pattern texts. */
  const DefaultRedirectRegexes: seq<string> := [
    "^feeds?\\.", "\\.feedsportal\\.com", "t\\.co", ".*\\.ly$", "lnkd\\.in", "red\\.ht", "nyti\\.ms"]

  const FeedsPattern: Pattern := [AtStart] + Literal("feed") + [Optional(Exactly('s')), One(Exactly('.'))]
  const FeedsportalPattern: Pattern := [One(Exactly('.'))] + Literal("feedsportal") + [One(Exactly('.'))] + Literal("com")
  const TcoPattern: Pattern := Literal("t") + [One(Exactly('.'))] + Literal("co")
  const LyPattern: Pattern := [Many(AnyButNewline), One(Exactly('.'))] + Literal("ly") + [AtEnd]
  const LnkdPattern: Pattern := Literal("lnkd") + [One(Exactly('.'))] + Literal("in")
  const RedhtPattern: Pattern := Literal("red") + [One(Exactly('.'))] + Literal("ht")
  const NytiPattern: Pattern := Literal("nyti") + [One(Exactly('.'))] + Literal("ms")

  /** The compiled default patterns, in the order of their texts: each is
      what `re.compile` makes of the text at the same position (see
      `CompileFeeds` to `CompileNyti`). */
  const DefaultPatterns: seq<Pattern> :=
    [FeedsPattern, FeedsportalPattern, TcoPattern, LyPattern, LnkdPattern, RedhtPattern, NytiPattern]

  lemma RenderWordDotWord(a: string, b: string)
    requires forall k :: 0 <= k < |a| ==> !NeedsEscape(a[k])
    requires forall k :: 0 <= k < |b| ==> !NeedsEscape(b[k])
    ensures Render(Literal(a) + [One(Exactly('.'))] + Literal(b)) == a + "\\." + b
  {
    RenderLiteral(a);
    RenderLiteral(b);
    RenderConcat(Literal(a), [One(Exactly('.'))]);
    RenderConcat(Literal(a) + [One(Exactly('.'))], Literal(b));
    assert Render([One(Exactly('.'))]) == "\\." + "";
  }

  lemma CompileFeeds()
    ensures Compile("^feeds?\\.") == Some(FeedsPattern)
  {
    RenderFeeds();
    CompileRender(FeedsPattern);
  }

  lemma RenderFeeds()
    ensures Render(FeedsPattern) == "^feeds?\\."
  {
    RenderLiteral("feed");
    RenderConcat([AtStart], Literal("feed"));
    RenderConcat([AtStart] + Literal("feed"), [Optional(Exactly('s')), One(Exactly('.'))]);
    RenderFeedsTail();
    assert Render([AtStart]) == "^" + "";
    FeedsText();
  }

  /** Proof helper: a string-literal equality used by `RenderFeeds`. */
  lemma FeedsText()
    ensures ("^" + "feed") + "s?\\." == "^feeds?\\."
  {
  }

  lemma RenderFeedsTail()
    ensures Render([Optional(Exactly('s')), One(Exactly('.'))]) == "s?\\."
  {
    assert Render([Optional(Exactly('s')), One(Exactly('.'))]) == "s?" + ("\\." + "");
  }

  lemma CompileFeedsportal()
    ensures Compile("\\.feedsportal\\.com") == Some(FeedsportalPattern)
  {
    RenderWordDotWord("feedsportal", "com");
    RenderConcat([One(Exactly('.'))], Literal("feedsportal") + [One(Exactly('.'))] + Literal("com"));
    assert [One(Exactly('.'))] + (Literal("feedsportal") + [One(Exactly('.'))] + Literal("com")) == FeedsportalPattern;
    assert Render([One(Exactly('.'))]) == "\\." + "";
    assert Render(FeedsportalPattern) == "\\.feedsportal\\.com";
    CompileRender(FeedsportalPattern);
  }

  lemma CompileLy()
    ensures Compile(".*\\.ly$") == Some(LyPattern)
  {
    RenderLiteral("ly");
    RenderConcat([Many(AnyButNewline), One(Exactly('.'))], Literal("ly"));
    RenderConcat([Many(AnyButNewline), One(Exactly('.'))] + Literal("ly"), [AtEnd]);
    assert Render([Many(AnyButNewline), One(Exactly('.'))]) == ".*" + ("\\." + "");
    assert Render([AtEnd]) == "$" + "";
    assert Render(LyPattern) == ".*\\.ly$";
    CompileRender(LyPattern);
  }

  /** A pattern `a\.b` for two plain words compiles from its text. */
  lemma CompileWordDotWord(a: string, b: string)
    requires forall k :: 0 <= k < |a| ==> !NeedsEscape(a[k])
    requires forall k :: 0 <= k < |b| ==> !NeedsEscape(b[k])
    ensures Compile(a + "\\." + b) == Some(Literal(a) + [One(Exactly('.'))] + Literal(b))
  {
    RenderWordDotWord(a, b);
    CompileRender(Literal(a) + [One(Exactly('.'))] + Literal(b));
  }

  lemma CompileTco()
    ensures Compile("t\\.co") == Some(TcoPattern)
  {
    CompileWordDotWord("t", "co");
    assert "t" + "\\." + "co" == "t\\.co";
  }

  lemma CompileLnkd()
    ensures Compile("lnkd\\.in") == Some(LnkdPattern)
  {
    CompileWordDotWord("lnkd", "in");
    assert "lnkd" + "\\." + "in" == "lnkd\\.in";
  }

  lemma CompileRedht()
    ensures Compile("red\\.ht") == Some(RedhtPattern)
  {
    CompileWordDotWord("red", "ht");
    assert "red" + "\\." + "ht" == "red\\.ht";
  }

  lemma CompileNyti()
    ensures Compile("nyti\\.ms") == Some(NytiPattern)
  {
    CompileWordDotWord("nyti", "ms");
    assert "nyti" + "\\." + "ms" == "nyti\\.ms";
  }

  /** Each default pattern text compiles to the pattern at the same position. */
  lemma DefaultsCompile()
    ensures |DefaultRedirectRegexes| == |DefaultPatterns|
    ensures forall i :: 0 <= i < |DefaultRedirectRegexes| ==> Compile(DefaultRedirectRegexes[i]) == Some(DefaultPatterns[i])
  {
    forall i | 0 <= i < |DefaultRedirectRegexes|
      ensures Compile(DefaultRedirectRegexes[i]) == Some(DefaultPatterns[i])
    {
      if i == 0 { CompileFeeds(); }
      else if i == 1 { CompileFeedsportal(); }
      else if i == 2 { CompileTco(); }
      else if i == 3 { CompileLy(); }
      else if i == 4 { CompileLnkd(); }
      else if i == 5 { CompileRedht(); }
      else { CompileNyti(); }
    }
  }

  // Where the default patterns match

  lemma WordDotWordIsLiteral(a: string, b: string)
    ensures Literal(a) + [One(Exactly('.'))] + Literal(b) == Literal(a + "." + b)
  {
    var l := Literal(a) + [One(Exactly('.'))] + Literal(b);
    var w := a + "." + b;
    assert |l| == |w|;
    forall k | 0 <= k < |w| ensures l[k] == One(Exactly(w[k])) {
      if k < |a| {
      } else if k == |a| {
      } else {
        assert l[k] == Literal(b)[k - |a| - 1];
      }
    }
  }

  /** A pattern `a\.b` of two plain words matches a host exactly when the host
      begins with `a.b`: `re.match` does not require the match to reach the
      end of the host. */
  lemma WordDotWordMatches(a: string, b: string, host: string)
    ensures Matches(Literal(a) + [One(Exactly('.'))] + Literal(b), host) <==>
      |a + "." + b| <= |host| && host[..|a + "." + b|] == a + "." + b
  {
    WordDotWordIsLiteral(a, b);
    LiteralMatches(a + "." + b, host);
  }

  /** So `t\.co` keeps `t.co` and also every host that merely begins with it. */
  lemma TcoMatchesPrefix(host: string)
    ensures Matches(TcoPattern, host) <==> 4 <= |host| && host[..4] == "t.co"
  {
    WordDotWordMatches("t", "co", host);
  }

  /** `\.feedsportal\.com` only matches a host that begins with `.`, which an
      ordinary host name does not: under `re.match` it keeps nothing such as
      `rss.feedsportal.com`. */
  lemma FeedsportalNeedsLeadingDot(host: string)
    requires Matches(FeedsportalPattern, host)
    ensures host != [] && host[0] == '.'
  {
    MatchesLeadingLiteral(FeedsportalPattern, '.', host);
  }

  /** `^feeds?\.` matches the FeedBurner host. */
  lemma FeedsMatchesFeedburner()
    ensures Matches(FeedsPattern, "feeds.feedburner.com")
  {
    var h := "feeds.feedburner.com";
    var tail: Pattern := [Optional(Exactly('s')), One(Exactly('.'))];
    assert MatchFrom(tail[1..][1..], h, 6);
    assert MatchFrom(tail[1..], h, 5);
    assert MatchFrom(tail, h, 4);
    LiteralMatchFrom("feed", tail, h, 0);
    assert h[0..4] == "feed";
    assert FeedsPattern[1..] == Literal("feed") + tail;
  }

  /** `.*\.ly$` matches a whole host ending in `.ly`. */
  lemma LyMatchesBitly()
    ensures Matches(LyPattern, "bit.ly")
  {
    var h := "bit.ly";
    var p := LyPattern;
    assert MatchFrom([AtEnd], h, 6);
    LiteralMatchFrom("ly", [AtEnd], h, 4);
    assert h[4..6] == "ly";
    assert p[1..][1..] == Literal("ly") + [AtEnd];
    assert MatchFrom(p[1..], h, 3);
    assert MatchFrom(p, h, 3);
    assert MatchFrom(p, h, 2);
    assert MatchFrom(p, h, 1);
  }

  // ---------------------------------------------------------------------
  // Bookmark selection (`_get_bookmarks`)
  // ---------------------------------------------------------------------

  /** `any(r.match(host) for r in regexes)`. */
  predicate AnyMatch(regexes: seq<Pattern>, host: string) {
    regexes != [] && (Matches(regexes[0], host) || AnyMatch(regexes[1..], host))
  }

  lemma {:induction false} AnyMatchIff(regexes: seq<Pattern>, host: string)
    ensures AnyMatch(regexes, host) <==> exists k :: 0 <= k < |regexes| && Matches(regexes[k], host)
  {
    if regexes != [] {
      AnyMatchIff(regexes[1..], host);
      if exists k :: 0 <= k < |regexes| && Matches(regexes[k], host) {
        var k :| 0 <= k < |regexes| && Matches(regexes[k], host);
        if k > 0 {
          assert regexes[1..][k - 1] == regexes[k];
        }
      }
      if exists k :: 0 <= k < |regexes[1..]| && Matches(regexes[1..][k], host) {
        var k :| 0 <= k < |regexes[1..]| && Matches(regexes[1..][k], host);
        assert regexes[k + 1] == regexes[1..][k];
      }
    }
  }

  /** The keep decision of the `redirects` command. */
  predicate KeepRedirect(bm: Bookmark, checkAll: bool, sites: seq<string>, regexes: seq<Pattern>) {
    checkAll || Netloc(bm.href) in sites || AnyMatch(regexes, Netloc(bm.href))
  }

  /** The posts that are kept, in order. */
  function Selected(posts: seq<Bookmark>, checkAll: bool, sites: seq<string>, regexes: seq<Pattern>): (kept: seq<Bookmark>)
    ensures |kept| <= |posts|
  {
    if posts == [] then []
    else
      var last := posts[|posts| - 1];
      Selected(posts[..|posts| - 1], checkAll, sites, regexes)
        + (if KeepRedirect(last, checkAll, sites, regexes) then [last] else [])
  }

  /** `_get_bookmarks(client, bookmark_queue, check_all, sites, regexes)` on
      the answer of `client.posts()`: the posts put on the queue, in order,
      and the `kept` counter. */
  method GetBookmarks(posts: seq<Bookmark>, checkAll: bool, sites: seq<string>, regexes: seq<Pattern>)
    returns (puts: seq<Bookmark>, kept: nat)
    ensures puts == Selected(posts, checkAll, sites, regexes)
    ensures kept == |puts|
  {
    puts, kept := [], 0;
    for i := 0 to |posts|
      invariant puts == Selected(posts[..i], checkAll, sites, regexes)
      invariant kept == |puts|
    {
      var bm := posts[i];
      assert posts[..i + 1][..i] == posts[..i];
      var keep: bool;
      if checkAll {
        keep := true;
      } else {
        var host := Netloc(bm.href);
        keep := host in sites || AnyMatch(regexes, host);
      }
      if keep {
        puts := puts + [bm];
        kept := kept + 1;
      }
    }
    assert posts[..|posts|] == posts;
  }

  /** A post is put exactly when it is among the posts and is kept. */
  lemma {:induction false} SelectedMembers(posts: seq<Bookmark>, checkAll: bool, sites: seq<string>, regexes: seq<Pattern>, b: Bookmark)
    ensures b in Selected(posts, checkAll, sites, regexes) <==> b in posts && KeepRedirect(b, checkAll, sites, regexes)
  {
    if posts != [] {
      var init := posts[..|posts| - 1];
      assert posts == init + [posts[|posts| - 1]];
      SelectedMembers(init, checkAll, sites, regexes, b);
    }
  }

  /** With `check_all` false, a post is put exactly when its host is one of
      the sites or some pattern matches at the start of its host. */
  lemma SiteOrPattern(posts: seq<Bookmark>, sites: seq<string>, regexes: seq<Pattern>, b: Bookmark)
    ensures b in Selected(posts, false, sites, regexes) <==>
      b in posts && (Netloc(b.href) in sites || exists k :: 0 <= k < |regexes| && Matches(regexes[k], Netloc(b.href)))
  {
    SelectedMembers(posts, false, sites, regexes, b);
    AnyMatchIff(regexes, Netloc(b.href));
  }

  /** With `check_all` every post is put, in order: neither the sites nor the
      patterns are consulted. */
  lemma {:induction false} SelectedCheckAll(posts: seq<Bookmark>, sites: seq<string>, regexes: seq<Pattern>)
    ensures Selected(posts, true, sites, regexes) == posts
  {
    if posts != [] {
      var init := posts[..|posts| - 1];
      assert posts == init + [posts[|posts| - 1]];
      SelectedCheckAll(init, sites, regexes);
    }
  }

  /** Each post is put as often as it occurs when kept, and never otherwise. */
  lemma {:induction false} SelectedCount(posts: seq<Bookmark>, checkAll: bool, sites: seq<string>, regexes: seq<Pattern>, b: Bookmark)
    ensures multiset(Selected(posts, checkAll, sites, regexes))[b] ==
      if KeepRedirect(b, checkAll, sites, regexes) then multiset(posts)[b] else 0
  {
    if posts != [] {
      var init := posts[..|posts| - 1];
      assert posts == init + [posts[|posts| - 1]];
      SelectedCount(init, checkAll, sites, regexes, b);
    }
  }

  /** With the default sites and patterns a FeedBurner link is kept. */
  lemma DefaultsKeepFeedburner(bm: Bookmark)
    requires bm.href == "http://feeds.feedburner.com/example"
    ensures KeepRedirect(bm, false, DefaultRedirectSites, DefaultPatterns)
  {
    FeedburnerHost(bm.href);
    FeedsMatchesFeedburner();
    assert DefaultPatterns[0] == FeedsPattern;
  }

  lemma FeedburnerHost(href: string)
    requires href == "http://feeds.feedburner.com/example"
    ensures Netloc(href) == "feeds.feedburner.com"
  {
    FeedburnerParts();
    FeedburnerPlain();
    NetlocOfUrl("http", "feeds.feedburner.com", "/example");
  }

  /** Proof helper: the FeedBurner example URL split into its parts. */
  lemma FeedburnerParts()
    ensures "http://feeds.feedburner.com/example" == "http" + "://" + "feeds.feedburner.com" + "/example"
  {
  }

  /** Proof helper: the FeedBurner example host holds no delimiter. */
  lemma FeedburnerPlain()
    ensures forall k :: 0 <= k < |"feeds.feedburner.com"| ==> !IsNetlocEnd("feeds.feedburner.com"[k])
  {
  }

  // ---------------------------------------------------------------------
  // `Redirects.take_action`
  // ---------------------------------------------------------------------

  /** How `take_action` ends: `client.posts()` raised, or every thread finished. */
  datatype CommandRun =
    | PostsFailed
    | Done(bookmarkQueue: seq<Option<Bookmark>>, updateQueue: seq<Option<UpdateItem>>,
           reports: seq<Report>, numUpdates: nat)

  /** `Redirects.take_action`: `posts` is the answer of `client.posts()`
      (`None` when it raised), `regexes` the compiled patterns and `client`
      the update client. */
  method TakeAction(client: BookmarkClient, posts: Option<seq<Bookmark>>, net: Bookmark -> ProbeResult,
                    dryRun: bool, addOnly: bool, allRedirects: bool, redirectSites: seq<string>,
                    regexes: seq<Pattern>)
    returns (outcome: CommandRun)
    modifies client
    ensures posts.None? ==> outcome == PostsFailed && client.calls == old(client.calls)
    ensures posts.Some? ==> outcome.Done?
    ensures outcome.Done? ==>
      && outcome.bookmarkQueue == Wrap(Selected(posts.value, allRedirects, redirectSites, regexes)) + Sentinels(NUM_WORKERS)
      && outcome.updateQueue == Wrap(Stage(outcome.bookmarkQueue, net, NUM_WORKERS).updates) + [None]
      && (dryRun ==> client.calls == old(client.calls) && |outcome.reports| == |Drain(outcome.updateQueue)|)
      && (!dryRun ==> client.calls == old(client.calls) + Update(outcome.updateQueue, old(client.script), addOnly).calls)
  {
    if posts.None? {
      return PostsFailed;
    }
    var puts, kept := GetBookmarks(posts.value, allRedirects, redirectSites, regexes);
    var bookmarkQueue, updateQueue, reports, numUpdates := RunWorkers(client, puts, net, NUM_WORKERS, dryRun, addOnly);
    outcome := Done(bookmarkQueue, updateQueue, reports, numUpdates);
  }
}
