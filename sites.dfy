/** linkscrubber/cmd/sites.py: the `sites` command lists the distinct URL
    hosts of all bookmarks, one per row, in ascending order. Strings are
    compared as Python compares them: character by character on code points,
    a proper prefix first. */
module Sites {
  import opened Basics
  import opened Urls

  /** `a < b` on Python strings. */
  predicate Below(a: string, b: string)
    decreases |a|
  {
    if a == [] then b != []
    else b != [] && (a[0] < b[0] || (a[0] == b[0] && Below(a[1..], b[1..])))
  }

  lemma {:induction false} BelowIrreflexive(a: string)
    ensures !Below(a, a)
    decreases |a|
  {
    if a != [] {
      BelowIrreflexive(a[1..]);
    }
  }

  lemma {:induction false} BelowTransitive(a: string, b: string, c: string)
    requires Below(a, b) && Below(b, c)
    ensures Below(a, c)
    decreases |a|
  {
    if a != [] && a[0] == b[0] && b[0] == c[0] {
      BelowTransitive(a[1..], b[1..], c[1..]);
    }
  }

  /** Two different strings are always ordered one way or the other. */
  lemma {:induction false} BelowTotal(a: string, b: string)
    requires a != b
    ensures Below(a, b) || Below(b, a)
    decreases |a|
  {
    if a != [] && b != [] && a[0] == b[0] {
      assert a == [a[0]] + a[1..] && b == [b[0]] + b[1..];
      BelowTotal(a[1..], b[1..]);
    }
  }

  /** `m` is the least element of `s`. */
  predicate IsLeast(m: string, s: set<string>) {
    m in s && forall x :: x in s && x != m ==> Below(m, x)
  }

  lemma {:induction false} LeastExists(s: set<string>)
    requires s != {}
    ensures exists m :: IsLeast(m, s)
    decreases |s|
  {
    var x :| x in s;
    if s == {x} {
      assert IsLeast(x, s);
    } else {
      LeastExists(s - {x});
      var m :| IsLeast(m, s - {x});
      if Below(m, x) {
        assert IsLeast(m, s);
      } else {
        BelowTotal(m, x);
        forall y | y in s && y != x
          ensures Below(x, y)
        {
          if y != m {
            BelowTransitive(x, m, y);
          }
        }
        assert IsLeast(x, s);
      }
    }
  }

  lemma LeastUnique(s: set<string>)
    ensures forall a, b :: IsLeast(a, s) && IsLeast(b, s) ==> a == b
  {
    forall a, b | IsLeast(a, s) && IsLeast(b, s)
      ensures a == b
    {
      if a != b {
        assert Below(a, b) && Below(b, a);
        BelowTransitive(a, b, a);
        BelowIrreflexive(a);
      }
    }
  }

  /** `sorted(s)`: the elements of `s` in strictly ascending order. */
  function SortedList(s: set<string>): (r: seq<string>)
    ensures |r| == |s|
    ensures forall x :: x in r <==> x in s
    ensures forall i, j :: 0 <= i < j < |r| ==> Below(r[i], r[j])
    decreases |s|
  {
    if s == {} then []
    else
      LeastExists(s);
      LeastUnique(s);
      var m :| IsLeast(m, s);
      var rest := SortedList(s - {m});
      assert forall j :: 0 < j < |[m] + rest| ==> ([m] + rest)[j] == rest[j - 1];
      [m] + rest
  }

  /** An ascending list holds no string twice. */
  lemma AscendingDistinct(r: seq<string>, i: nat, j: nat)
    requires forall i, j :: 0 <= i < j < |r| ==> Below(r[i], r[j])
    requires i < j < |r|
    ensures r[i] != r[j]
  {
    BelowIrreflexive(r[i]);
  }

  /** The hosts of a run of bookmarks. */
  function Hosts(bookmarks: seq<Bookmark>): set<string> {
    set b | b in bookmarks :: Netloc(b.href)
  }

  /** The loop of `take_action`: every bookmark's host added to a set. */
  method CollectHosts(bookmarks: seq<Bookmark>) returns (sites: set<string>)
    ensures sites == Hosts(bookmarks)
  {
    sites := {};
    for i := 0 to |bookmarks|
      invariant sites == Hosts(bookmarks[..i])
    {
      assert bookmarks[..i + 1] == bookmarks[..i] + [bookmarks[i]];
      sites := sites + {Netloc(bookmarks[i].href)};
    }
    assert bookmarks[..|bookmarks|] == bookmarks;
  }

  /** The rows of the listing: each site wrapped in a 1-tuple. */
  function Rows(sorted: seq<string>): (rows: seq<seq<string>>)
    ensures |rows| == |sorted|
    ensures forall k :: 0 <= k < |sorted| ==> rows[k] == [sorted[k]]
  {
    seq(|sorted|, k requires 0 <= k < |sorted| => [sorted[k]])
  }

  /** `Sites.take_action`: the header `('Site',)` and one 1-tuple per host of
      `client.posts()`, hosts ascending. */
  method ListSites(bookmarks: seq<Bookmark>) returns (header: seq<string>, rows: seq<seq<string>>)
    ensures header == ["Site"]
    ensures rows == Rows(SortedList(Hosts(bookmarks)))
    ensures |rows| == |Hosts(bookmarks)|
    ensures forall i :: 0 <= i < |rows| ==> |rows[i]| == 1
    ensures forall i, j :: 0 <= i < j < |rows| ==> Below(rows[i][0], rows[j][0])
    ensures forall b :: b in bookmarks ==> [Netloc(b.href)] in rows
    ensures forall r :: r in rows ==> exists b :: b in bookmarks && r == [Netloc(b.href)]
  {
    var sites := CollectHosts(bookmarks);
    var sorted := SortedList(sites);
    header := ["Site"];
    rows := Rows(sorted);
    HostsListed(bookmarks);
    ListedHosts(bookmarks);
  }

  /** Every bookmark's host has a row. */
  lemma HostsListed(bookmarks: seq<Bookmark>)
    ensures forall b :: b in bookmarks ==> [Netloc(b.href)] in Rows(SortedList(Hosts(bookmarks)))
  {
    var sorted := SortedList(Hosts(bookmarks));
    var rows := Rows(sorted);
    forall b | b in bookmarks
      ensures [Netloc(b.href)] in rows
    {
      var h := Netloc(b.href);
      assert h in sorted;
      var k :| 0 <= k < |sorted| && sorted[k] == h;
      assert rows[k] == [h];
    }
  }

  /** Every row is the host of some bookmark. */
  lemma ListedHosts(bookmarks: seq<Bookmark>)
    ensures forall r :: r in Rows(SortedList(Hosts(bookmarks))) ==> exists b :: b in bookmarks && r == [Netloc(b.href)]
  {
    var sorted := SortedList(Hosts(bookmarks));
    var rows := Rows(sorted);
    forall r | r in rows
      ensures exists b :: b in bookmarks && r == [Netloc(b.href)]
    {
      var k :| 0 <= k < |rows| && rows[k] == r;
      assert sorted[k] in Hosts(bookmarks);
    }
  }

  /** No site is listed twice. */
  lemma ListedOnce(rows: seq<seq<string>>, i: nat, j: nat)
    requires forall i :: 0 <= i < |rows| ==> |rows[i]| == 1
    requires forall i, j :: 0 <= i < j < |rows| ==> Below(rows[i][0], rows[j][0])
    requires i < j < |rows|
    ensures rows[i] != rows[j]
  {
    BelowIrreflexive(rows[i][0]);
  }
}
