/** The remote bookmark service as the live update worker and the tag
    command see it. A call either succeeds or raises; which one is read off a
    script of outcomes given up front, one outcome per call in call order
    (calls beyond the end of the script succeed). The client keeps a ghost
    log of every call made on it, arguments included. */
module Client {

  /** The mutating calls of the service, with the arguments they are given. */
  datatype Call =
    | Add(url: string, description: string, extended: string, tags: seq<string>, date: seq<int>)
    | Delete(url: string)
    | RenameTag(oldName: string, newName: string)

  /** Whether the call at position `i` of the script succeeds. */
  function OutcomeAt(script: seq<bool>, i: nat): bool {
    if i < |script| then script[i] else true
  }

  /** The script left after `n` calls. */
  function Consume(script: seq<bool>, n: nat): seq<bool> {
    if n <= |script| then script[n..] else []
  }

  /** The outcomes left after `n` calls are those from position `n` on. */
  lemma ConsumeOutcome(script: seq<bool>, n: nat, i: nat)
    ensures OutcomeAt(Consume(script, n), i) == OutcomeAt(script, n + i)
  {
  }

  /** Taking `a` outcomes and then `b` more is taking `a + b`. */
  lemma ConsumeTwice(script: seq<bool>, a: nat, b: nat)
    ensures Consume(Consume(script, a), b) == Consume(script, a + b)
  {
    if a + b <= |script| {
      assert script[a..][b..] == script[a + b..];
    }
  }

  class BookmarkClient {
    /** Every call made so far, oldest first. */
    ghost var calls: seq<Call>
    /** The outcomes of the calls still to come. */
    var script: seq<bool>

    constructor (script: seq<bool>)
      ensures calls == [] && this.script == script
    {
      calls := [];
      this.script := script;
    }

    /** Makes one call: it is logged and takes the next scripted outcome. */
    method Perform(c: Call) returns (ok: bool)
      modifies this
      ensures calls == old(calls) + [c]
      ensures ok == OutcomeAt(old(script), 0)
      ensures script == Consume(old(script), 1)
    {
      ok := script == [] || script[0];
      script := if script == [] then [] else script[1..];
      calls := calls + [c];
    }

    /** `client.add(url=..., description=..., extended=..., tags=..., date=...)`. */
    method Add(url: string, description: string, extended: string, tags: seq<string>, date: seq<int>)
      returns (ok: bool)
      modifies this
      ensures calls == old(calls) + [Call.Add(url, description, extended, tags, date)]
      ensures ok == OutcomeAt(old(script), 0)
      ensures script == Consume(old(script), 1)
    {
      ok := Perform(Call.Add(url, description, extended, tags, date));
    }

    /** `client.delete(url)`. */
    method Delete(url: string) returns (ok: bool)
      modifies this
      ensures calls == old(calls) + [Call.Delete(url)]
      ensures ok == OutcomeAt(old(script), 0)
      ensures script == Consume(old(script), 1)
    {
      ok := Perform(Call.Delete(url));
    }

    /** `client.rename_tag(old, new)`. */
    method RenameTag(oldName: string, newName: string) returns (ok: bool)
      modifies this
      ensures calls == old(calls) + [Call.RenameTag(oldName, newName)]
      ensures ok == OutcomeAt(old(script), 0)
      ensures script == Consume(old(script), 1)
    {
      ok := Perform(Call.RenameTag(oldName, newName));
    }
  }
}
