/** linkscrubber/cmd/tags.py: the `tags canonicalize` command renames every
    tag that is not already lower-case to its lower-case form, in the order
    the service lists the tags, unless in dry run. The first rename that
    raises ends the command. */
module Tags {
  import opened Basics
  import opened Client

  predicate IsUpper(c: char) {
    'A' <= c <= 'Z'
  }

  /** `c.lower()` on ASCII. */
  function LowerChar(c: char): (d: char)
    ensures !IsUpper(d)
    ensures IsUpper(c) ==> d as int == c as int + 32
    ensures !IsUpper(c) ==> d == c
  {
    if IsUpper(c) then (c as int + 32) as char else c
  }

  /** `s.lower()`. */
  function Lower(s: string): (t: string)
    ensures |t| == |s|
    ensures forall k :: 0 <= k < |s| ==> t[k] == LowerChar(s[k])
  {
    seq(|s|, k requires 0 <= k < |s| => LowerChar(s[k]))
  }

  /** A tag is left alone exactly when it has no upper-case letter. */
  lemma LowerFixed(s: string)
    ensures Lower(s) == s <==> forall k :: 0 <= k < |s| ==> !IsUpper(s[k])
  {
    if Lower(s) == s {
      forall k | 0 <= k < |s| ensures !IsUpper(s[k]) {
        assert Lower(s)[k] == LowerChar(s[k]);
      }
    }
  }

  /** Lowering twice is lowering once: a target is never renamed again. */
  lemma LowerIdempotent(s: string)
    ensures Lower(Lower(s)) == Lower(s)
  {
  }

  /** Two characters that are the same letter, up to capitalization: equal,
      or an ASCII capital and the small letter 32 code points above it. */
  predicate SameLetter(c: char, d: char) {
    c == d || (IsUpper(c) && d as int == c as int + 32) || (IsUpper(d) && c as int == d as int + 32)
  }

  /** Tags that are the same except for capitalization. */
  predicate SameIgnoringCase(a: string, b: string) {
    |a| == |b| && forall k :: 0 <= k < |a| ==> SameLetter(a[k], b[k])
  }

  /** Lowering identifies exactly the characters that are the same letter. */
  lemma SameLetterLower(c: char, d: char)
    ensures SameLetter(c, d) <==> LowerChar(c) == LowerChar(d)
  {
    if LowerChar(c) == LowerChar(d) {
      if IsUpper(c) && IsUpper(d) {
        assert c as int + 32 == d as int + 32;
      }
    }
  }

  /** Tags that differ only by case are renamed to the same tag. */
  lemma SameTarget(a: string, b: string)
    ensures SameIgnoringCase(a, b) <==> Lower(a) == Lower(b)
  {
    if Lower(a) == Lower(b) {
      forall k | 0 <= k < |a| ensures SameLetter(a[k], b[k]) {
        assert Lower(a)[k] == Lower(b)[k];
        SameLetterLower(a[k], b[k]);
      }
    }
    if SameIgnoringCase(a, b) {
      forall k | 0 <= k < |a| ensures Lower(a)[k] == Lower(b)[k] {
        SameLetterLower(a[k], b[k]);
      }
    }
  }

  /** The rename for one tag, if it needs one. */
  function RenameOf(tag: string): seq<Call> {
    var lowered := Lower(tag);
    if lowered != tag then [Call.RenameTag(tag, lowered)] else []
  }

  /** The renames the loop decides on, in the order of `tags`. */
  function RenamePlan(tags: seq<string>): seq<Call> {
    if tags == [] then [] else RenameOf(tags[0]) + RenamePlan(tags[1..])
  }

  /** A rename from `t` to `u` is planned exactly when `t` is a listed tag
      that is not lower-case and `u` is its lower-case form. */
  lemma {:induction false} RenamePlanMembers(tags: seq<string>, t: string, u: string)
    ensures Call.RenameTag(t, u) in RenamePlan(tags) <==> t in tags && Lower(t) != t && u == Lower(t)
  {
    if tags != [] {
      RenamePlanMembers(tags[1..], t, u);
      assert tags == [tags[0]] + tags[1..];
    }
  }

  /** Only renames are planned, each to the lower-case form of its tag. */
  lemma {:induction false} RenamePlanTargets(tags: seq<string>, k: nat)
    requires k < |RenamePlan(tags)|
    ensures var c := RenamePlan(tags)[k];
      c.RenameTag? && c.newName == Lower(c.oldName) && c.newName != c.oldName
  {
    var here := RenameOf(tags[0]);
    if k >= |here| {
      assert RenamePlan(tags)[k] == RenamePlan(tags[1..])[k - |here|];
      RenamePlanTargets(tags[1..], k - |here|);
    }
  }

  /** Renames follow the order of the tags: the plan of two runs of tags is
      the plan of the first followed by the plan of the second. */
  lemma {:induction false} RenamePlanConcat(a: seq<string>, b: seq<string>)
    ensures RenamePlan(a + b) == RenamePlan(a) + RenamePlan(b)
  {
    if a == [] {
      assert a + b == b;
    } else {
      assert (a + b)[1..] == a[1..] + b;
      RenamePlanConcat(a[1..], b);
    }
  }

  /** The calls actually made for a plan when the client answers by
      `script`: each rename is made in turn, and the first that raises is the
      last one made. */
  function Issued(plan: seq<Call>, script: seq<bool>): seq<Call> {
    if plan == [] then []
    else [plan[0]] + if OutcomeAt(script, 0) then Issued(plan[1..], Consume(script, 1)) else []
  }

  /** Every rename of the plan succeeds. */
  predicate Completes(plan: seq<Call>, script: seq<bool>) {
    plan == [] || (OutcomeAt(script, 0) && Completes(plan[1..], Consume(script, 1)))
  }

  /** The calls made are the plan when every rename succeeds, and otherwise
      a prefix of it that ends with the rename that raised. */
  lemma {:induction false} IssuedPrefix(plan: seq<Call>, script: seq<bool>)
    ensures var issued := Issued(plan, script);
      && |issued| <= |plan| && issued == plan[..|issued|]
      && (Completes(plan, script) ==> issued == plan)
      && (!Completes(plan, script) ==> issued != [] && !OutcomeAt(script, |issued| - 1))
    decreases |plan|
  {
    if plan != [] {
      if OutcomeAt(script, 0) {
        IssuedPrefix(plan[1..], Consume(script, 1));
        var rest := Issued(plan[1..], Consume(script, 1));
        if rest != [] {
          ConsumeOutcome(script, 1, |rest| - 1);
        }
        assert plan[..|rest| + 1] == [plan[0]] + plan[1..][..|rest|];
        assert plan == [plan[0]] + plan[1..];
      } else {
        assert Issued(plan, script) == [plan[0]];
      }
    }
  }

  /** A service that never fails gets every planned rename. */
  lemma {:induction false} IssuedAllSucceed(plan: seq<Call>)
    ensures Issued(plan, []) == plan && Completes(plan, [])
    decreases |plan|
  {
    if plan != [] {
      IssuedAllSucceed(plan[1..]);
    }
  }

  lemma IssuedStep(plan: seq<Call>, step: seq<Call>, script: seq<bool>)
    requires |step| <= 1
    ensures |step| == 0 ==> Issued(step + plan, script) == Issued(plan, script)
    ensures |step| == 0 ==> Completes(step + plan, script) == Completes(plan, script)
    ensures |step| == 1 ==>
      Issued(step + plan, script) == step + if OutcomeAt(script, 0) then Issued(plan, Consume(script, 1)) else []
    ensures |step| == 1 ==>
      Completes(step + plan, script) == (OutcomeAt(script, 0) && Completes(plan, Consume(script, 1)))
  {
    if |step| == 0 {
      assert step + plan == plan;
    } else {
      assert (step + plan)[0] == step[0] && (step + plan)[1..] == plan;
    }
  }

  /** One tag taken by the loop: what is left of the plan's calls and of its
      completion after that tag, in each of the ways it can go. */
  lemma CanonicalizeStep(tags: seq<string>, i: nat, script: seq<bool>, made: seq<Call>)
    requires i < |tags|
    ensures var t := tags[i];
      var here := RenamePlan(tags[i..]);
      var rest := RenamePlan(tags[i + 1..]);
      var step := [Call.RenameTag(t, Lower(t))];
      && (Lower(t) == t ==>
        Issued(here, script) == Issued(rest, script) && Completes(here, script) == Completes(rest, script))
      && (Lower(t) != t && !OutcomeAt(script, 0) ==>
        made + Issued(here, script) == made + step && !Completes(here, script))
      && (Lower(t) != t && OutcomeAt(script, 0) ==>
        made + Issued(here, script) == (made + step) + Issued(rest, Consume(script, 1))
        && Completes(here, script) == Completes(rest, Consume(script, 1)))
  {
    var t := tags[i];
    assert tags[i..][1..] == tags[i + 1..];
    var rest := RenamePlan(tags[i + 1..]);
    assert RenamePlan(tags[i..]) == RenameOf(t) + rest;
    IssuedStep(rest, RenameOf(t), script);
    if Lower(t) != t && OutcomeAt(script, 0) {
      var step := [Call.RenameTag(t, Lower(t))];
      assert made + (step + Issued(rest, Consume(script, 1))) == (made + step) + Issued(rest, Consume(script, 1));
    }
  }

  /** Loop bookkeeping of `Canonicalize`: the calls and the completion of the
      whole plan are the calls made so far followed by those of the plan
      that is left. */
  predicate RenameTracks(plan: seq<Call>, start: seq<bool>, made: seq<Call>, rest: seq<Call>, script: seq<bool>) {
    Issued(plan, start) == made + Issued(rest, script) && Completes(plan, start) == Completes(rest, script)
  }

  /** The bookkeeping carried over a tag that is renamed. */
  lemma RenameAdvance(tags: seq<string>, i: nat, plan: seq<Call>, start: seq<bool>, made: seq<Call>, script: seq<bool>)
    requires i < |tags| && Lower(tags[i]) != tags[i]
    requires RenameTracks(plan, start, made, RenamePlan(tags[i..]), script)
    ensures var step := [Call.RenameTag(tags[i], Lower(tags[i]))];
      && (OutcomeAt(script, 0) ==> RenameTracks(plan, start, made + step, RenamePlan(tags[i + 1..]), Consume(script, 1)))
      && (!OutcomeAt(script, 0) ==> Issued(plan, start) == made + step && !Completes(plan, start))
  {
    CanonicalizeStep(tags, i, script, made);
  }

  /** The bookkeeping carried over a tag that is already lower case. */
  lemma RenameSkip(tags: seq<string>, i: nat, plan: seq<Call>, start: seq<bool>, made: seq<Call>, script: seq<bool>)
    requires i < |tags| && Lower(tags[i]) == tags[i]
    requires RenameTracks(plan, start, made, RenamePlan(tags[i..]), script)
    ensures RenameTracks(plan, start, made, RenamePlan(tags[i + 1..]), script)
  {
    CanonicalizeStep(tags, i, script, made);
  }

  /** The bookkeeping at the end of the tags. */
  lemma RenameStop(tags: seq<string>, plan: seq<Call>, start: seq<bool>, made: seq<Call>, script: seq<bool>)
    requires RenameTracks(plan, start, made, RenamePlan(tags[|tags|..]), script)
    ensures Issued(plan, start) == made && Completes(plan, start)
  {
    assert tags[|tags|..] == [];
    assert made + [] == made;
  }

  /** `TagsCanonicalize.take_action`: returns whether the loop ran to its
      end (a rename that raises ends it early). */
  method Canonicalize(client: BookmarkClient, tags: seq<string>, dryRun: bool) returns (completed: bool)
    modifies client
    ensures dryRun ==> completed && client.calls == old(client.calls) && client.script == old(client.script)
    ensures !dryRun ==> var issued := Issued(RenamePlan(tags), old(client.script));
      && client.calls == old(client.calls) + issued
      && client.script == Consume(old(client.script), |issued|)
      && completed == Completes(RenamePlan(tags), old(client.script))
  {
    ghost var start := client.script;
    ghost var plan := RenamePlan(tags);
    ghost var made: seq<Call> := [];
    var i := 0;
    var failed := false;
    assert tags[0..] == tags && [] + Issued(plan, start) == Issued(plan, start);
    while i < |tags| && !failed
      invariant i <= |tags|
      invariant client.calls == old(client.calls) + made
      invariant dryRun ==> made == [] && client.script == start && !failed
      invariant !dryRun ==> client.script == Consume(start, |made|)
      invariant !dryRun && !failed ==> RenameTracks(plan, start, made, RenamePlan(tags[i..]), client.script)
      invariant !dryRun && failed ==> Issued(plan, start) == made && !Completes(plan, start)
    {
      var tag := tags[i];
      var lowered := Lower(tag);
      if lowered != tag && !dryRun {
        RenameAdvance(tags, i, plan, start, made, client.script);
        var ok := client.RenameTag(tag, lowered);
        ConsumeTwice(start, |made|, 1);
        AppendTwice(old(client.calls), made, [Call.RenameTag(tag, lowered)]);
        made := made + [Call.RenameTag(tag, lowered)];
        failed := !ok;
      } else if !dryRun {
        RenameSkip(tags, i, plan, start, made, client.script);
      }
      i := i + 1;
    }
    if !dryRun && !failed {
      RenameStop(tags, plan, start, made, client.script);
    }
    completed := !failed;
  }

  /** Two tags that differ only by case, each different from its lower-case
      form, are both renamed to the same lower-case tag, in listed order. */
  lemma ExampleTwoSpellings()
    ensures RenamePlan(["Python", "PYTHON", "python"]) ==
      [Call.RenameTag("Python", "python"), Call.RenameTag("PYTHON", "python")]
  {
    var tags := ["Python", "PYTHON", "python"];
    assert Lower("Python") == "python";
    assert Lower("PYTHON") == "python";
    assert Lower("python") == "python";
    assert tags[1..] == ["PYTHON", "python"] && tags[1..][1..] == ["python"] && tags[1..][1..][1..] == [];
  }
}
