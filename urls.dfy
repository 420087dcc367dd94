/** The host part of a bookmark's URL, as `urlparse(href).netloc` gives it
    for ordinary URLs: the authority component of section 3.2 of RFC 3986,
    found by a simplified version of `urlsplit`. A scheme is split off at the
    first `:` when everything before it is a valid scheme name; the netloc is
    then the text after a leading `//` up to the first `/`, `?` or `#`. The
    `ValueError` of `urlsplit` on unbalanced `[` and `]` and its removal of
    whitespace and control characters are not modelled. */
module Urls {
  import opened Basics

  predicate IsAsciiLetter(c: char) {
    'a' <= c <= 'z' || 'A' <= c <= 'Z'
  }

  /** Characters allowed in a scheme name. */
  predicate IsSchemeChar(c: char) {
    IsAsciiLetter(c) || '0' <= c <= '9' || c == '+' || c == '-' || c == '.'
  }

  /** Characters that end the netloc. */
  predicate IsNetlocEnd(c: char) {
    c == '/' || c == '?' || c == '#'
  }

  predicate ValidScheme(s: string) {
    |s| > 0 && IsAsciiLetter(s[0]) && forall k :: 0 <= k < |s| ==> IsSchemeChar(s[k])
  }

  /** `s.find(c)`: the index of the first `c` in `s`, if any. */
  function Find(s: string, c: char): (r: Option<nat>)
    ensures r.None? <==> c !in s
    ensures r.Some? ==> r.value < |s| && s[r.value] == c && c !in s[..r.value]
  {
    if s == [] then None
    else if s[0] == c then Some(0)
    else match Find(s[1..], c)
      case None => None
      case Some(k) =>
        assert s[..k + 1] == [s[0]] + s[1..][..k];
        Some(k + 1)
  }

  /** The first index at or after `from` holding a netloc delimiter, or `|s|`. */
  function NetlocEnd(s: string, from: nat): (e: nat)
    requires from <= |s|
    ensures from <= e <= |s|
    ensures forall k :: from <= k < e ==> !IsNetlocEnd(s[k])
    ensures e < |s| ==> IsNetlocEnd(s[e])
    decreases |s| - from
  {
    if from == |s| || IsNetlocEnd(s[from]) then from else NetlocEnd(s, from + 1)
  }

  /** The URL with its scheme and the `:` after it removed, or the URL
      unchanged when the text before the first `:` is not a scheme name. */
  function AfterScheme(url: string): string {
    match Find(url, ':')
    case None => url
    case Some(i) =>
      if 0 < i && IsAsciiLetter(url[0]) && forall k :: 0 <= k < i ==> IsSchemeChar(url[k])
      then url[i + 1..]
      else url
  }

  /** `urlparse(url).netloc`. The result never holds a delimiter. */
  function Netloc(url: string): (host: string)
    ensures forall k :: 0 <= k < |host| ==> !IsNetlocEnd(host[k])
  {
    var rest := AfterScheme(url);
    if |rest| >= 2 && rest[0] == '/' && rest[1] == '/' then rest[2..NetlocEnd(rest, 2)] else ""
  }

  lemma {:induction false} FindAfter(p: string, s: string, c: char)
    requires c !in p
    requires s != [] && s[0] == c
    ensures Find(p + s, c) == Some(|p|)
  {
    if p != [] {
      assert (p + s)[1..] == p[1..] + s;
      FindAfter(p[1..], s, c);
    }
  }

  lemma AfterValidScheme(scheme: string, rest: string)
    requires ValidScheme(scheme)
    ensures AfterScheme(scheme + ":" + rest) == rest
  {
    var url := scheme + ":" + rest;
    assert ':' !in scheme by {
      forall k | 0 <= k < |scheme| ensures scheme[k] != ':' {
        assert IsSchemeChar(scheme[k]);
      }
    }
    assert url == scheme + (":" + rest);
    FindAfter(scheme, ":" + rest, ':');
    assert forall k :: 0 <= k < |scheme| ==> url[k] == scheme[k];
    assert url[|scheme| + 1..] == rest;
  }

  /** `NetlocEnd` is the first delimiter position: any `j` with no delimiter
      in `[from, j)` and a delimiter (or the end) at `j` is it. */
  lemma {:induction false} NetlocEndIs(s: string, from: nat, j: nat)
    requires from <= j <= |s|
    requires forall k :: from <= k < j ==> !IsNetlocEnd(s[k])
    requires j == |s| || IsNetlocEnd(s[j])
    ensures NetlocEnd(s, from) == j
    decreases j - from
  {
    if from < j {
      NetlocEndIs(s, from + 1, j);
    }
  }

  lemma NetlocEndAfterHost(host: string, tail: string)
    requires forall k :: 0 <= k < |host| ==> !IsNetlocEnd(host[k])
    requires tail == [] || IsNetlocEnd(tail[0])
    ensures NetlocEnd("//" + host + tail, 2) == 2 + |host|
  {
    var rest := "//" + host + tail;
    assert forall k :: 2 <= k < 2 + |host| ==> rest[k] == host[k - 2];
    assert tail != [] ==> rest[2 + |host|] == tail[0];
    NetlocEndIs(rest, 2, 2 + |host|);
  }

  /** Round trip: the netloc of `scheme://host` followed by a path, query or
      fragment (or nothing) is exactly `host`. */
  lemma NetlocOfUrl(scheme: string, host: string, tail: string)
    requires ValidScheme(scheme)
    requires forall k :: 0 <= k < |host| ==> !IsNetlocEnd(host[k])
    requires tail == [] || IsNetlocEnd(tail[0])
    ensures Netloc(scheme + "://" + host + tail) == host
  {
    var rest := "//" + host + tail;
    assert scheme + "://" + host + tail == scheme + ":" + rest;
    AfterValidScheme(scheme, rest);
    NetlocEndAfterHost(host, tail);
    assert rest[2..2 + |host|] == host;
  }

  /** The example of the bookmark tests: `http://example.com/blah`. */
  lemma ExampleNetloc()
    ensures Netloc("http://example.com/blah") == "example.com"
  {
    ExampleParts();
    ExamplePlain();
    NetlocOfUrl("http", "example.com", "/blah");
  }

  /** Proof helper: the example URL split into its parts. */
  lemma ExampleParts()
    ensures "http://example.com/blah" == "http" + "://" + "example.com" + "/blah"
  {
  }

  /** Proof helper: the example host holds no delimiter. */
  lemma ExamplePlain()
    ensures forall k :: 0 <= k < |"example.com"| ==> !IsNetlocEnd("example.com"[k])
  {
  }
}
