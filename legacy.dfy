/** linkscrubber/main.py: the first, stand-alone version of the program. Its
    bookmark source visits every date and has no early stop; a date whose
    fetch raised is not skipped, so the loop filters again whatever posts the
    previous date left in `bookmarks` (and raises when there are none yet).
    Its prober is the one of `Processing` (`/` on Python 2 integers rounds
    down like `//`); its update worker deletes after every successful add,
    lets a failing delete end the thread and never counts its updates. */
module Legacy {
  import opened Basics
  import opened Urls
  import opened Client
  import opened Processing

  // ---------------------------------------------------------------------
  // Bookmark enumeration (`_get_bookmarks`)
  // ---------------------------------------------------------------------

  /** The value of `bookmarks` after the given dates: the posts of the last
      date whose fetch succeeded, or unbound. */
  function Latest(days: seq<Day>): Option<seq<Bookmark>> {
    if days == [] then None
    else if days[|days| - 1].posts.Some? then days[|days| - 1].posts
    else Latest(days[..|days| - 1])
  }

  /** The puts of a run of dates: each date filters the current `bookmarks`. */
  function LegacyPutsOf(days: seq<Day>, checkAll: bool, sites: set<string>): seq<Bookmark> {
    if days == [] then []
    else
      LegacyPutsOf(days[..|days| - 1], checkAll, sites) + match Latest(days)
        case None => []
        case Some(ps) => KeptOf(ps, checkAll, sites)
  }

  /** Once the first date has been fetched, `bookmarks` stays bound. */
  lemma {:induction false} LatestBound(days: seq<Day>)
    requires days != [] && days[0].posts.Some?
    ensures Latest(days).Some?
  {
    if |days| > 1 && days[|days| - 1].posts.None? {
      LatestBound(days[..|days| - 1]);
    }
  }

  /** `_get_bookmarks(client, bookmark_queue, check_all, sites)`: the posts
      put, the dates whose posts were requested, and whether the loop raised
      because the first fetch failed and `bookmarks` was never bound. */
  method LegacyGetBookmarks(days: seq<Day>, checkAll: bool, sites: seq<string>)
    returns (puts: seq<Bookmark>, fetched: seq<string>, crashed: bool)
    ensures crashed <==> days != [] && days[0].posts.None?
    ensures crashed ==> puts == [] && fetched == [days[0].date]
    ensures !crashed ==> puts == LegacyPutsOf(days, checkAll, SiteSet(sites)) && fetched == DatesOf(days)
  {
    var siteSet := SiteSet(sites);
    var bookmarks: Option<seq<Bookmark>> := None;
    puts, fetched, crashed := [], [], false;
    for i := 0 to |days|
      invariant bookmarks == Latest(days[..i])
      invariant puts == LegacyPutsOf(days[..i], checkAll, siteSet)
      invariant fetched == DatesOf(days[..i])
      invariant i > 0 ==> days[0].posts.Some?
    {
      var d := days[i];
      LegacyEnumerationStep(days, i, checkAll, siteSet);
      fetched := fetched + [d.date];
      if d.posts.Some? {
        bookmarks := d.posts;
      }
      if bookmarks.None? {
        assert i == 0 && days[..0] == [];
        crashed := true;
        return;
      }
      var dayPuts, kept := PutKept(bookmarks.value, checkAll, siteSet);
      puts := puts + dayPuts;
    }
    assert days[..|days|] == days;
  }

  /** One more date appended to a run of dates in the old loop. */
  lemma LegacyEnumerationStep(days: seq<Day>, i: nat, checkAll: bool, sites: set<string>)
    requires i < |days|
    ensures DatesOf(days[..i + 1]) == DatesOf(days[..i]) + [days[i].date]
    ensures Latest(days[..i + 1]) == if days[i].posts.Some? then days[i].posts else Latest(days[..i])
    ensures LegacyPutsOf(days[..i + 1], checkAll, sites) == LegacyPutsOf(days[..i], checkAll, sites) +
      match Latest(days[..i + 1])
      case None => []
      case Some(ps) => KeptOf(ps, checkAll, sites)
    ensures i > 0 && days[0].posts.Some? ==> Latest(days[..i + 1]).Some?
  {
    assert days[..i + 1][..i] == days[..i] && days[..i + 1][i] == days[i];
    if i > 0 && days[0].posts.Some? {
      LatestBound(days[..i + 1]);
    }
  }

  /** When no fetch fails the old loop puts exactly what the current one puts
      without stop-early. */
  lemma {:induction false} LegacyAgreesWithoutFailures(days: seq<Day>, checkAll: bool, sites: set<string>)
    requires forall k :: 0 <= k < |days| ==> days[k].posts.Some?
    ensures LegacyPutsOf(days, checkAll, sites) == PutsOf(days, checkAll, sites)
  {
    if days != [] {
      var init := days[..|days| - 1];
      assert forall k :: 0 <= k < |init| ==> init[k] == days[k];
      LegacyAgreesWithoutFailures(init, checkAll, sites);
      var last := days[|days| - 1];
      assert Latest(days) == last.posts;
      assert LegacyPutsOf(days, checkAll, sites) == LegacyPutsOf(init, checkAll, sites) + KeptOf(last.posts.value, checkAll, sites);
      assert PutsOf(days, checkAll, sites) == PutsOf(init, checkAll, sites) + DayPuts(last, checkAll, sites);
    }
  }

  /** The quirk: a date whose fetch failed puts the previous date's kept posts
      a second time. */
  lemma FailedDateRepeats(a: Day, b: Day, checkAll: bool, sites: set<string>)
    requires a.posts.Some? && b.posts.None?
    ensures LegacyPutsOf([a, b], checkAll, sites) ==
      KeptOf(a.posts.value, checkAll, sites) + KeptOf(a.posts.value, checkAll, sites)
  {
    var days := [a, b];
    assert days[..1] == [a];
    assert days[..1][..0] == [];
    assert Latest([a]) == a.posts;
    assert Latest(days) == a.posts;
    assert LegacyPutsOf([a], checkAll, sites) == KeptOf(a.posts.value, checkAll, sites);
  }

  /** The posts filtered on date `k`, were there one. */
  lemma {:induction false} LatestPosted(days: seq<Day>, b: Bookmark)
    requires Latest(days).Some? && b in Latest(days).value
    ensures exists k :: PostedOn(days, k, b)
  {
    var n := |days| - 1;
    if days[n].posts.Some? {
      assert PostedOn(days, n, b);
    } else {
      LatestPosted(days[..n], b);
      var k :| PostedOn(days[..n], k, b);
      assert PostedOn(days, k, b);
    }
  }

  /** Repeats aside, the old loop puts the same bookmarks as the current one:
      exactly those some fetch returned that pass the filter. */
  lemma {:induction false} LegacyPutsOfMembers(days: seq<Day>, checkAll: bool, sites: set<string>, b: Bookmark)
    ensures b in LegacyPutsOf(days, checkAll, sites) <==>
      Keep(b, checkAll, sites) && exists k :: PostedOn(days, k, b)
  {
    if days != [] {
      var n := |days| - 1;
      var init := days[..n];
      LegacyPutsOfMembers(init, checkAll, sites, b);
      var here := match Latest(days) case None => [] case Some(ps) => KeptOf(ps, checkAll, sites);
      assert LegacyPutsOf(days, checkAll, sites) == LegacyPutsOf(init, checkAll, sites) + here;
      if Latest(days).Some? {
        KeptOfMembers(Latest(days).value, checkAll, sites, b);
        if b in here {
          LatestPosted(days, b);
        }
      }
      if exists k :: PostedOn(init, k, b) {
        var k :| PostedOn(init, k, b);
        assert PostedOn(days, k, b);
      }
      if Keep(b, checkAll, sites) && exists k :: PostedOn(days, k, b) {
        var k :| PostedOn(days, k, b);
        if k == n {
          KeptOfMembers(days[n].posts.value, checkAll, sites, b);
        } else {
          assert PostedOn(init, k, b);
        }
      }
    }
  }

  // ---------------------------------------------------------------------
  // The prober's status test
  // ---------------------------------------------------------------------

  /** Python 2's `/` on integers: the quotient rounded down. */
  function FloorDiv(a: int, b: int): (q: int)
    requires b != 0
    ensures b > 0 ==> q * b <= a < q * b + b
  {
    if b > 0 then a / b else (-a) / (-b)
  }

  /** `response.status_code / 100 == 3` under Python 2 holds exactly for the
      statuses `status_code // 100 == 3` accepts, 300 to 399. */
  lemma LegacyRedirectTest(status: int)
    ensures FloorDiv(status, 100) == 3 <==> IsRedirect(status)
    ensures FloorDiv(status, 100) == 3 <==> 300 <= status <= 399
  {
    RedirectStatuses(status);
  }

  // ---------------------------------------------------------------------
  // The update worker (`_update_worker`)
  // ---------------------------------------------------------------------

  /** The update worker's loop on queue `q` with the client answering by
      `script`: an add that raises is reported and the loop goes on; after a
      successful add the old post is deleted, and a delete that raises ends
      the thread. `num_updates` is never incremented. */
  function LegacyUpdate(q: seq<Option<UpdateItem>>, script: seq<bool>): (run: UpdateRun)
    ensures run.calls == [] <==> q == [] || q[0].None?
    decreases |q|
  {
    if q == [] then UpdateRun([], 0, QueueEmpty)
    else if q[0].None? then UpdateRun([], 0, SawSentinel)
    else
      var u := q[0].value;
      if !OutcomeAt(script, 0) then
        var rest := LegacyUpdate(q[1..], Consume(script, 1));
        UpdateRun([AddFor(u)] + rest.calls, rest.numUpdates, rest.exit)
      else if !OutcomeAt(script, 1) then
        UpdateRun([AddFor(u), Call.Delete(u.bookmark.href)], 0, Crashed)
      else
        var rest := LegacyUpdate(q[1..], Consume(script, 2));
        UpdateRun([AddFor(u), Call.Delete(u.bookmark.href)] + rest.calls, rest.numUpdates, rest.exit)
  }

  /** The calls the old worker makes for one entry: the add, and the
      delete when the add succeeded. */
  function LegacyStepCalls(u: UpdateItem, script: seq<bool>): seq<Call> {
    if OutcomeAt(script, 0) then [AddFor(u), Call.Delete(u.bookmark.href)] else [AddFor(u)]
  }

  /** The thread ends at this entry exactly when the add succeeded and the
      delete raised. */
  predicate LegacyStepCrashes(script: seq<bool>) {
    OutcomeAt(script, 0) && !OutcomeAt(script, 1)
  }

  /** One real entry taken by the old update worker: its calls come first,
      then either the thread ends or the rest of the queue is worked off with
      the outcomes left. */
  lemma LegacyUpdateStep(q: seq<Option<UpdateItem>>, i: nat, script: seq<bool>, made: seq<Call>)
    requires i < |q| && q[i].Some?
    ensures var step := LegacyStepCalls(q[i].value, script);
      var here := LegacyUpdate(q[i..], script);
      var rest := LegacyUpdate(q[i + 1..], Consume(script, |step|));
      && (LegacyStepCrashes(script) ==> here == UpdateRun(step, 0, Crashed))
      && (!LegacyStepCrashes(script) ==>
        made + here.calls == (made + step) + rest.calls
        && here.numUpdates == rest.numUpdates && here.exit == rest.exit)
  {
    assert q[i..][1..] == q[i + 1..];
    var step := LegacyStepCalls(q[i].value, script);
    var rest := LegacyUpdate(q[i + 1..], Consume(script, |step|));
    assert made + (step + rest.calls) == (made + step) + rest.calls;
  }

  /** The body of the old worker's loop for one entry: add the new URL and,
      when that succeeded, delete the old one. */
  method LegacyReplace(client: BookmarkClient, u: UpdateItem) returns (crashed: bool)
    modifies client
    ensures var step := LegacyStepCalls(u, old(client.script));
      && client.calls == old(client.calls) + step
      && client.script == Consume(old(client.script), |step|)
      && crashed == LegacyStepCrashes(old(client.script))
  {
    ghost var before := client.script;
    var bm := u.bookmark;
    var added := client.Add(u.newUrl, bm.description, bm.extended, bm.tags, Prefix(bm.timeParsed, 3));
    crashed := false;
    if added {
      ConsumeOutcome(before, 1, 0);
      var deleted := client.Delete(bm.href);
      ConsumeTwice(before, 1, 1);
      crashed := !deleted;
    }
  }

  /** The loop's bookkeeping carried over one real entry. */
  lemma LegacyAdvance(q: seq<Option<UpdateItem>>, i: nat, script: seq<bool>, run: UpdateRun, made: seq<Call>, n: nat)
    requires i < |q| && q[i].Some?
    requires Tracks(run, made, n, LegacyUpdate(q[i..], script))
    ensures var step := LegacyStepCalls(q[i].value, script);
      && (LegacyStepCrashes(script) ==> run == UpdateRun(made + step, n, Crashed))
      && (!LegacyStepCrashes(script) ==> Tracks(run, made + step, n, LegacyUpdate(q[i + 1..], Consume(script, |step|))))
  {
    LegacyUpdateStep(q, i, script, made);
    var step := LegacyStepCalls(q[i].value, script);
    assert (made + step) + [] == made + step;
  }

  /** The loop's bookkeeping where the loop stops: the end of the queue or a
      sentinel. */
  lemma LegacyStop(q: seq<Option<UpdateItem>>, i: nat, script: seq<bool>, run: UpdateRun, made: seq<Call>, n: nat)
    requires i <= |q| && (i == |q| || q[i].None?)
    requires Tracks(run, made, n, LegacyUpdate(q[i..], script))
    ensures run == UpdateRun(made, n, if i == |q| then QueueEmpty else SawSentinel)
  {
    assert made + [] == made;
  }

  /** `_update_worker(client, update_queue)`. */
  method LegacyUpdateWorker(client: BookmarkClient, q: seq<Option<UpdateItem>>)
    returns (numUpdates: nat, exit: Exit)
    modifies client
    ensures var run := LegacyUpdate(q, old(client.script));
      && client.calls == old(client.calls) + run.calls
      && client.script == Consume(old(client.script), |run.calls|)
      && numUpdates == run.numUpdates && exit == run.exit
  {
    ghost var start := client.script;
    ghost var run := LegacyUpdate(q, start);
    ghost var made: seq<Call> := [];
    numUpdates := 0;
    var i := 0;
    var crashed := false;
    assert q[0..] == q && [] + run.calls == run.calls;
    while !crashed && i < |q| && q[i].Some?
      invariant i <= |q|
      invariant client.calls == old(client.calls) + made
      invariant client.script == Consume(start, |made|)
      invariant crashed ==> run == UpdateRun(made, numUpdates, Crashed)
      invariant !crashed ==> Tracks(run, made, numUpdates, LegacyUpdate(q[i..], client.script))
      decreases |q| - i
    {
      ghost var step := LegacyStepCalls(q[i].value, client.script);
      LegacyAdvance(q, i, client.script, run, made, numUpdates);
      crashed := LegacyReplace(client, q[i].value);
      ConsumeTwice(start, |made|, |step|);
      AppendTwice(old(client.calls), made, step);
      made := made + step;
      i := i + 1;
    }
    if crashed {
      exit := Crashed;
    } else {
      LegacyStop(q, i, client.script, run, made, numUpdates);
      exit := if i == |q| then QueueEmpty else SawSentinel;
    }
  }

  /** The final report of the old worker is always 0 updates. */
  lemma {:induction false} LegacyReportsNothing(q: seq<Option<UpdateItem>>, script: seq<bool>)
    ensures LegacyUpdate(q, script).numUpdates == 0
    decreases |q|
  {
    if q != [] && q[0].Some? {
      LegacyReportsNothing(q[1..], Consume(script, 1));
      LegacyReportsNothing(q[1..], Consume(script, 2));
    }
  }

  /** A delete is made only right after an add that succeeded, and it removes
      the old URL of that add's entry. */
  lemma LegacyDeleteAt(q: seq<Option<UpdateItem>>, script: seq<bool>, k: nat)
    requires k < |LegacyUpdate(q, script).calls|
    requires LegacyUpdate(q, script).calls[k].Delete?
    ensures var calls := LegacyUpdate(q, script).calls;
      && 0 < k && OutcomeAt(script, k - 1)
      && exists u :: u in Drain(q) && calls[k - 1] == AddFor(u) && calls[k] == Call.Delete(u.bookmark.href)
  {
    var u := LegacyDeletedEntry(q, script, k);
  }

  /** The entry whose delete the call at `k` is. */
  lemma {:induction false} LegacyDeletedEntry(q: seq<Option<UpdateItem>>, script: seq<bool>, k: nat) returns (u: UpdateItem)
    requires k < |LegacyUpdate(q, script).calls|
    requires LegacyUpdate(q, script).calls[k].Delete?
    ensures var calls := LegacyUpdate(q, script).calls;
      && 0 < k && OutcomeAt(script, k - 1) && u in Drain(q)
      && calls[k - 1] == AddFor(u) && calls[k] == Call.Delete(u.bookmark.href)
    decreases |q|, 1
  {
    var head := q[0].value;
    var step := LegacyStepCalls(head, script);
    var calls := LegacyUpdate(q, script).calls;
    LegacyHead(q, script);
    assert Drain(q) == [head] + Drain(q[1..]);
    if k < |step| {
      LegacyDeleteInStep(head, script, k);
      assert calls[k - 1] == step[k - 1] && calls[k] == step[k];
      u := head;
    } else {
      u := LegacyDeletedLater(q, script, k);
    }
  }

  /** `LegacyDeletedEntry` for a call past the first entry's own calls. */
  lemma {:induction false} LegacyDeletedLater(q: seq<Option<UpdateItem>>, script: seq<bool>, k: nat) returns (u: UpdateItem)
    requires q != [] && q[0].Some?
    requires |LegacyStepCalls(q[0].value, script)| <= k < |LegacyUpdate(q, script).calls|
    requires LegacyUpdate(q, script).calls[k].Delete?
    ensures var calls := LegacyUpdate(q, script).calls;
      && 0 < k && OutcomeAt(script, k - 1) && u in Drain(q)
      && calls[k - 1] == AddFor(u) && calls[k] == Call.Delete(u.bookmark.href)
    decreases |q|, 0
  {
    var step := LegacyStepCalls(q[0].value, script);
    var calls := LegacyUpdate(q, script).calls;
    LegacyHead(q, script);
    var script' := Consume(script, |step|);
    var rest := LegacyUpdate(q[1..], script').calls;
    assert calls == step + rest;
    var j := k - |step|;
    assert calls[k] == rest[j];
    u := LegacyDeletedEntry(q[1..], script', j);
    ConsumeOutcome(script, |step|, j - 1);
    assert |step| + (j - 1) == k - 1;
    assert calls[k - 1] == rest[j - 1];
    assert Drain(q) == [q[0].value] + Drain(q[1..]);
  }

  /** The only delete among one entry's calls is the second call, made after
      a successful add. */
  lemma LegacyDeleteInStep(u: UpdateItem, script: seq<bool>, k: nat)
    requires k < |LegacyStepCalls(u, script)|
    requires LegacyStepCalls(u, script)[k].Delete?
    ensures k == 1 && OutcomeAt(script, 0)
    ensures LegacyStepCalls(u, script)[0] == AddFor(u)
    ensures LegacyStepCalls(u, script)[1] == Call.Delete(u.bookmark.href)
  {
  }

  /** The calls of the old worker on a queue that starts with a real entry. */
  lemma LegacyHead(q: seq<Option<UpdateItem>>, script: seq<bool>)
    requires q != [] && q[0].Some?
    ensures var step := LegacyStepCalls(q[0].value, script);
      && (LegacyStepCrashes(script) ==> LegacyUpdate(q, script).calls == step)
      && (!LegacyStepCrashes(script) ==>
        LegacyUpdate(q, script).calls == step + LegacyUpdate(q[1..], Consume(script, |step|)).calls)
  {
  }

  /** Every add that succeeds is followed by a delete. */
  lemma {:induction false} LegacyAddAt(q: seq<Option<UpdateItem>>, script: seq<bool>, k: nat)
    requires k < |LegacyUpdate(q, script).calls|
    requires LegacyUpdate(q, script).calls[k].Add?
    requires OutcomeAt(script, k)
    ensures k + 1 < |LegacyUpdate(q, script).calls|
    ensures LegacyUpdate(q, script).calls[k + 1].Delete?
    decreases |q|
  {
    var u := q[0].value;
    var step := LegacyStepCalls(u, script);
    var calls := LegacyUpdate(q, script).calls;
    LegacyHead(q, script);
    if k >= |step| {
      var script' := Consume(script, |step|);
      var rest := LegacyUpdate(q[1..], script').calls;
      assert calls == step + rest;
      assert calls[k] == rest[k - |step|];
      ConsumeOutcome(script, |step|, k - |step|);
      LegacyAddAt(q[1..], script', k - |step|);
      assert calls[k + 1] == rest[k - |step| + 1];
    } else {
      assert k == 0 && |step| == 2 && calls[1] == step[1];
    }
  }

  /** The thread ends by an exception exactly at a delete that raised: then
      that delete is its last call. */
  lemma {:induction false} LegacyCrashAtEnd(q: seq<Option<UpdateItem>>, script: seq<bool>)
    requires LegacyUpdate(q, script).exit == Crashed
    ensures var calls := LegacyUpdate(q, script).calls;
      && calls != [] && calls[|calls| - 1].Delete? && !OutcomeAt(script, |calls| - 1)
    decreases |q|
  {
    var u := q[0].value;
    var step := LegacyStepCalls(u, script);
    assert q[0..][1..] == q[1..] && q[0..] == q;
    LegacyUpdateStep(q, 0, script, []);
    if !LegacyStepCrashes(script) {
      var rest := LegacyUpdate(q[1..], Consume(script, |step|));
      LegacyCrashAtEnd(q[1..], Consume(script, |step|));
      ConsumeOutcome(script, |step|, |rest.calls| - 1);
      var calls := step + rest.calls;
      assert calls[|calls| - 1] == rest.calls[|rest.calls| - 1];
    }
  }

  /** A delete that raises ends the thread: it is the last call and the
      worker reports a crash. */
  lemma {:induction false} LegacyFailedDeleteEnds(q: seq<Option<UpdateItem>>, script: seq<bool>, k: nat)
    requires k < |LegacyUpdate(q, script).calls|
    requires LegacyUpdate(q, script).calls[k].Delete?
    requires !OutcomeAt(script, k)
    ensures LegacyUpdate(q, script).exit == Crashed
    ensures k == |LegacyUpdate(q, script).calls| - 1
    decreases |q|
  {
    var u := q[0].value;
    var step := LegacyStepCalls(u, script);
    var here := LegacyUpdate(q, script);
    assert q[0..][1..] == q[1..] && q[0..] == q;
    LegacyUpdateStep(q, 0, script, []);
    if k >= |step| {
      var rest := LegacyUpdate(q[1..], Consume(script, |step|));
      assert !LegacyStepCrashes(script);
      assert here.calls == step + rest.calls;
      assert here.calls[k] == rest.calls[k - |step|];
      ConsumeOutcome(script, |step|, k - |step|);
      LegacyFailedDeleteEnds(q[1..], Consume(script, |step|), k - |step|);
    }
  }

  /** Unless a delete raised, the worker makes one add per entry in queue
      order and ends on the sentinel exactly when there is one. */
  lemma {:induction false} LegacyDrains(q: seq<Option<UpdateItem>>, script: seq<bool>)
    requires LegacyUpdate(q, script).exit != Crashed
    ensures AddsOf(LegacyUpdate(q, script).calls) == AddsFor(Drain(q))
    ensures LegacyUpdate(q, script).exit == SawSentinel <==> |Drain(q)| < |q|
    decreases |q|
  {
    if q != [] && q[0].Some? {
      var u := q[0].value;
      var step := LegacyStepCalls(u, script);
      assert q[0..][1..] == q[1..] && q[0..] == q;
      LegacyUpdateStep(q, 0, script, []);
      var rest := LegacyUpdate(q[1..], Consume(script, |step|));
      assert LegacyUpdate(q, script).calls == step + rest.calls;
      LegacyDrains(q[1..], Consume(script, |step|));
      AddsOfConcat(step, rest.calls);
      LegacyStepAdds(u, script);
      AddsForDrain(q);
    }
  }

  /** One entry's calls hold exactly one add, its own. */
  lemma LegacyStepAdds(u: UpdateItem, script: seq<bool>)
    ensures AddsOf(LegacyStepCalls(u, script)) == [AddFor(u)]
  {
    StepAdds(u, OutcomeAt(script, 0), false);
  }

  /** When every call succeeds each bookmark is replaced, as in the current
      worker, and the thread does not crash. */
  lemma {:induction false} LegacyAllSucceed(q: seq<Option<UpdateItem>>)
    ensures LegacyUpdate(q, []).calls == Replacements(Drain(q))
    ensures LegacyUpdate(q, []).calls == Update(q, [], false).calls
    ensures LegacyUpdate(q, []).exit != Crashed
    decreases |q|
  {
    if q != [] && q[0].Some? {
      LegacyAllSucceed(q[1..]);
      UpdateAllSucceed(q);
      assert Drain(q)[1..] == Drain(q[1..]);
    }
  }

  // ---------------------------------------------------------------------
  // `main(argv)`
  // ---------------------------------------------------------------------

  /** How `main` ends: `client.dates()` raised, `_get_bookmarks` raised
      because the first date's posts could not be fetched (no sentinel is
      ever sent), or every thread was joined and 0 is returned. */
  datatype LegacyOutcome =
    | DatesFailed
    | EnumerationRaised(fetched: seq<string>)
    | Completed(fetched: seq<string>, bookmarkQueue: seq<Option<Bookmark>>,
                updateQueue: seq<Option<UpdateItem>>, reports: seq<Report>,
                updateExit: Exit, status: int)

  /** `main(argv)` after argument parsing: `numWorkers` probers, the dry-run
      or live update worker, `--all-redirects` and `--redirect-site`. */
  method LegacyMain(client: BookmarkClient, dates: Option<seq<Day>>, net: Bookmark -> ProbeResult,
                    numWorkers: nat, dryRun: bool, allRedirects: bool, redirectSites: seq<string>)
    returns (outcome: LegacyOutcome)
    modifies client
    ensures outcome.DatesFailed? <==> dates.None?
    ensures outcome.EnumerationRaised? <==> dates.Some? && dates.value != [] && dates.value[0].posts.None?
    ensures !outcome.Completed? ==> client.calls == old(client.calls) && client.script == old(client.script)
    ensures outcome.Completed? ==>
      var days := dates.value;
      var puts := LegacyPutsOf(days, allRedirects, SiteSet(redirectSites));
      && outcome.status == 0
      && outcome.fetched == DatesOf(days)
      && outcome.bookmarkQueue == Wrap(puts) + Sentinels(numWorkers)
      && outcome.updateQueue == Wrap(Stage(outcome.bookmarkQueue, net, numWorkers).updates) + [None]
      && (dryRun ==> client.calls == old(client.calls) && client.script == old(client.script))
      && (dryRun ==> |outcome.reports| == |Drain(outcome.updateQueue)|)
      && (dryRun ==> forall k :: 0 <= k < |outcome.reports| ==>
            outcome.reports[k] == Report(Drain(outcome.updateQueue)[k].bookmark.href, Drain(outcome.updateQueue)[k].newUrl))
      && (dryRun ==> outcome.updateExit == SawSentinel)
      && (!dryRun ==> var run := LegacyUpdate(outcome.updateQueue, old(client.script));
            && client.calls == old(client.calls) + run.calls
            && client.script == Consume(old(client.script), |run.calls|)
            && outcome.reports == [] && outcome.updateExit == run.exit)
  {
    if dates.None? {
      return DatesFailed;
    }
    var puts, fetched, crashed := LegacyGetBookmarks(dates.value, allRedirects, redirectSites);
    if crashed {
      return EnumerationRaised(fetched);
    }
    var bookmarkQueue := Wrap(puts);
    var k := 0;
    while k < numWorkers
      invariant k <= numWorkers
      invariant bookmarkQueue == Wrap(puts) + Sentinels(k)
    {
      bookmarkQueue := bookmarkQueue + [None];
      k := k + 1;
      assert Sentinels<Bookmark>(k) == Sentinels<Bookmark>(k - 1) + [None];
    }
    var updates, taken := ProbeStage(bookmarkQueue, net, numWorkers);
    var updateQueue := Wrap(updates) + [None];
    var reports: seq<Report>;
    var exit: Exit;
    if dryRun {
      reports, exit := DryRunWorker(updateQueue);
      DrainWrapped(updates, []);
      assert Wrap(updates) + [None] + [] == updateQueue;
    } else {
      reports := [];
      var numUpdates;
      numUpdates, exit := LegacyUpdateWorker(client, updateQueue);
    }
    outcome := Completed(fetched, bookmarkQueue, updateQueue, reports, exit, 0);
  }
}
