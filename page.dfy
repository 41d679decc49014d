/**
 * The web page's turn orchestration (WebApp/src/app/page.tsx): a user turn
 * appends the user's record and an empty bot placeholder, the streaming
 * read loop hands each decoded chunk to a handler that grows an
 * accumulator and rewrites the placeholder by id, and any failure
 * overwrites the placeholder with a fixed apology.
 */
module Page {
  import opened Wrappers
  import opened Strings
  import opened Conversation
  import opened Http

  /**
   * The text written to the placeholder on any failure. The source writes
   * it as an ordinary string literal, so `${_error}` is part of the text
   * and is not replaced by the error.
   */
  const ApologyText := "Sorry, I encountered an error. Please try again later. ${_error}"

  /**
   * One `reader.read()`: the chunk it carries, already decoded (None when
   * `value` is undefined), and the `done` flag; or a read that throws.
   */
  datatype Read = Read(value: Option<string>, done: bool) | ReadFailed

  /**
   * What `fetch` produces: a thrown network error, or a response with its
   * status (from which `response.ok` follows), whether
   * `response.body?.getReader()` gave a reader, and what the reader's
   * successive reads return. A stream whose reads run out counts as done.
   */
  datatype StreamResponse = FetchFailed | Response(status: int, hasReader: bool, results: seq<Read>)

  /** Why `fetchBotResponseStreaming` throws. */
  datatype StreamError = RequestFailed | BadStatus(status: int) | NoReader | ReadError

  /** The chunks passed to `onChunk`, in call order, and the error thrown afterwards, if any. */
  datatype StreamOutcome = StreamOutcome(chunks: seq<string>, error: Option<StreamError>)

  /** A read after which the loop does not read again. */
  predicate Terminal(r: Read) {
    r.ReadFailed? || r.done
  }

  /**
   * The value one read carries, if any: what `if (value)` passes on. A
   * `Uint8Array` is truthy even when empty, so every present value is
   * passed on, also an empty one and one on the read that reports done.
   */
  function Carried(r: Read): (c: seq<string>)
    ensures |c| <= 1
    ensures c != [] <==> r.Read? && r.value.Some?
    ensures c != [] ==> c[0] == r.value.value
  {
    if r.Read? && r.value.Some? then [r.value.value] else []
  }

  /** The values carried by `results`, in order: at most one per read, and every one of them. */
  function Values(results: seq<Read>): (v: seq<string>)
    ensures |v| <= |results|
    ensures forall j :: 0 <= j < |results| && results[j].Read? && results[j].value.Some? ==> results[j].value.value in v
  {
    if results == [] then []
    else
      assert forall j :: 0 < j < |results| ==> results[1..][j - 1] == results[j];
      Carried(results[0]) + Values(results[1..])
  }

  /**
   * The read loop `while (!done)`: each read's value, if present, goes to
   * `onChunk` (also on the read that reports done); the loop ends after the
   * first read that reports done, and a read that throws ends it with an
   * error.
   */
  function ReadLoop(results: seq<Read>): (r: StreamOutcome)
    ensures |r.chunks| <= |results|
    ensures r.error == None || r.error == Some(ReadError)
    ensures (forall j :: 0 <= j < |results| ==> results[j].Read?) ==> r.error == None
  {
    if results == [] then StreamOutcome([], None)
    else if results[0].ReadFailed? then StreamOutcome([], Some(ReadError))
    else if results[0].done then StreamOutcome(Carried(results[0]), None)
    else
      var rest := ReadLoop(results[1..]);
      StreamOutcome(Carried(results[0]) + rest.chunks, rest.error)
  }

  /**
   * `fetchBotResponseStreaming`: a failed request, a non-ok status or a
   * missing reader throws before any chunk is delivered; otherwise the read
   * loop runs.
   */
  function Streaming(resp: StreamResponse): (r: StreamOutcome)
    ensures !(resp.Response? && OkStatus(resp.status) && resp.hasReader) ==> r.chunks == [] && r.error.Some?
    ensures resp.Response? && !OkStatus(resp.status) ==> r.error == Some(BadStatus(resp.status))
  {
    match resp
    case FetchFailed => StreamOutcome([], Some(RequestFailed))
    case Response(status, hasReader, results) =>
      if !OkStatus(status) then StreamOutcome([], Some(BadStatus(status)))
      else if !hasReader then StreamOutcome([], Some(NoReader))
      else ReadLoop(results)
  }

  /** The loop delivers exactly the values up to its first terminal read, and reads no further. */
  lemma {:induction false} ReadLoopStopsAtFirstTerminal(results: seq<Read>, k: nat)
    requires k < |results| && Terminal(results[k])
    requires forall j :: 0 <= j < k ==> !Terminal(results[j])
    ensures ReadLoop(results) == ReadLoop(results[..k + 1])
    ensures results[k].Read? ==> ReadLoop(results) == StreamOutcome(Values(results[..k + 1]), None)
    ensures results[k].ReadFailed? ==> ReadLoop(results) == StreamOutcome(Values(results[..k]), Some(ReadError))
    decreases k
  {
    var p := results[..k + 1];
    if k == 0 {
      assert p == [results[0]];
      assert p[1..] == [];
      assert results[..0] == [];
    } else {
      assert p[0] == results[0] && p[1..] == results[1..][..k];
      assert results[..k][0] == results[0] && results[..k][1..] == results[1..][..k - 1];
      ReadLoopStopsAtFirstTerminal(results[1..], k - 1);
    }
  }

  /** Without a terminal read, the loop delivers every value and ends when the reads run out. */
  lemma {:induction false} ReadLoopNoTerminal(results: seq<Read>)
    requires forall j :: 0 <= j < |results| ==> !Terminal(results[j])
    ensures ReadLoop(results) == StreamOutcome(Values(results), None)
    decreases |results|
  {
    if results != [] {
      ReadLoopNoTerminal(results[1..]);
    }
  }

  /**
   * The successive accumulator values as `chunks` arrive after `acc`: the
   * one written after the `i`-th chunk is `acc` followed by the chunks up
   * to and including it.
   */
  function Running(acc: string, chunks: seq<string>): (r: seq<string>)
    ensures |r| == |chunks|
    ensures forall i :: 0 <= i < |chunks| ==> r[i] == acc + Concat(chunks[..i + 1])
  {
    if chunks == [] then []
    else
      var init := chunks[..|chunks| - 1];
      assert forall k :: 0 < k <= |init| ==> init[..k] == chunks[..k];
      assert chunks[..|chunks|] == chunks;
      Running(acc, init) + [acc + Concat(chunks)]
  }

  /** A list of texts in which each one extends every earlier one. */
  ghost predicate PrefixOrdered(texts: seq<string>) {
    forall i, j :: 0 <= i <= j < |texts| ==> texts[i] <= texts[j]
  }

  /** The prefix order is transitive. */
  lemma PrefixTrans(a: string, b: string, c: string)
    requires a <= b && b <= c
    ensures a <= c
  {
    assert c[..|b|][..|a|] == c[..|a|];
  }

  /**
   * The texts written to the placeholder grow monotonically: each extends
   * the one before, all extend `acc`, and the last is `acc` followed by
   * every chunk.
   */
  lemma {:induction false} RunningGrows(acc: string, chunks: seq<string>)
    ensures |Running(acc, chunks)| == |chunks|
    ensures PrefixOrdered(Running(acc, chunks))
    ensures forall i :: 0 <= i < |chunks| ==> acc <= Running(acc, chunks)[i] <= acc + Concat(chunks)
    ensures chunks != [] ==> Running(acc, chunks)[|chunks| - 1] == acc + Concat(chunks)
    decreases |chunks|
  {
    if chunks != [] {
      var init := chunks[..|chunks| - 1];
      RunningGrows(acc, init);
      assert acc + Concat(chunks) == (acc + Concat(init)) + chunks[|chunks| - 1];
      var r := Running(acc, chunks);
      forall i | 0 <= i < |chunks| ensures acc <= r[i] <= acc + Concat(chunks) {
        if i < |init| {
          PrefixTrans(r[i], acc + Concat(init), acc + Concat(chunks));
        }
      }
      forall i, j | 0 <= i <= j < |r| ensures r[i] <= r[j] {
        if j == |init| && i < j {
          PrefixTrans(r[i], acc + Concat(init), r[j]);
        }
      }
    }
  }

  /**
   * The final text of a turn's placeholder: the apology after a failure,
   * else all chunks joined. A failed request, a non-ok status and a missing
   * reader always give the apology; a body whose reads never throw gives
   * the chunks it delivers.
   */
  function ReplyText(resp: StreamResponse): (r: string)
    ensures !(resp.Response? && OkStatus(resp.status) && resp.hasReader) ==> r == ApologyText
    ensures resp.Response? && OkStatus(resp.status) && resp.hasReader && (forall j :: 0 <= j < |resp.results| ==> resp.results[j].Read?)
      ==> r == Concat(ReadLoop(resp.results).chunks)
  {
    var out := Streaming(resp);
    if out.error.Some? then ApologyText else Concat(out.chunks)
  }

  /**
   * The conversation after one turn of `handleSendMessage`. The turn only
   * appends the user's record and the bot's after the earlier ones; no
   * record is removed, reordered or given another id or sender.
   */
  function TurnResult(before: seq<Message>, text: string, userId: int, botId: int, resp: StreamResponse): (r: seq<Message>)
    ensures |r| == |before| + 2
    ensures forall i :: 0 <= i < |before| ==> r[i].id == before[i].id && r[i].sender == before[i].sender
    ensures r[|before|].id == userId && r[|before|].sender == User
    ensures r[|before| + 1].id == botId && r[|before| + 1].sender == Bot
  {
    var started := before + [Message(userId, text, User), Message(botId, "", Bot)];
    var out := Streaming(resp);
    if out.error.Some? then UpdateText(started, botId, ApologyText)
    else if out.chunks == [] then started
    else UpdateText(started, botId, Concat(out.chunks))
  }

  /**
   * A turn appends exactly two records: the placeholder always ends with
   * the reply text; the user record is intact unless it shares the
   * placeholder's id; earlier records are unchanged unless one shares it.
   */
  lemma TurnAppendsTwo(before: seq<Message>, text: string, userId: int, botId: int, resp: StreamResponse)
    ensures |TurnResult(before, text, userId, botId, resp)| == |before| + 2
    ensures TurnResult(before, text, userId, botId, resp)[|before| + 1] == Message(botId, ReplyText(resp), Bot)
    ensures userId != botId ==> TurnResult(before, text, userId, botId, resp)[|before|] == Message(userId, text, User)
    ensures !HasId(before, botId) ==> TurnResult(before, text, userId, botId, resp)[..|before|] == before
  {
    var added := [Message(userId, text, User), Message(botId, "", Bot)];
    var r := TurnResult(before, text, userId, botId, resp);
    var out := Streaming(resp);
    var t := if out.error.Some? then ApologyText else Concat(out.chunks);
    if out.error.None? && out.chunks == [] {
      assert Concat(out.chunks) == "";
    } else {
      UpdateJoin(before, added, botId, t);
      if !HasId(before, botId) {
        UpdateAbsentId(before, botId, t);
      }
    }
  }

  /** Reads that neither carry a value nor throw deliver nothing and end without error. */
  lemma {:induction false} SilentReadLoop(results: seq<Read>)
    requires forall j :: 0 <= j < |results| ==> results[j].Read? && results[j].value.None?
    ensures ReadLoop(results) == StreamOutcome([], None)
    decreases |results|
  {
    if results != [] && !results[0].done {
      assert Carried(results[0]) == [];
      SilentReadLoop(results[1..]);
    }
  }

  /**
   * An ok response whose reads neither carry a value nor throw (a single
   * read reporting done, say) leaves the placeholder empty and raises no
   * error.
   */
  lemma EmptyStreamLeavesEmptyPlaceholder(before: seq<Message>, text: string, userId: int, botId: int, status: int, results: seq<Read>)
    requires OkStatus(status)
    requires forall j :: 0 <= j < |results| ==> results[j].Read? && results[j].value.None?
    ensures Streaming(Response(status, true, results)) == StreamOutcome([], None)
    ensures TurnResult(before, text, userId, botId, Response(status, true, results))
      == before + [Message(userId, text, User), Message(botId, "", Bot)]
  {
    SilentReadLoop(results);
  }

  /**
   * A failed request (status 500, say) ends the turn with the user record
   * intact and the placeholder holding the apology.
   */
  lemma FailedRequestApologises(text: string, userId: int, botId: int, results: seq<Read>)
    requires userId != botId && botId != WelcomeId
    ensures TurnResult(Initial, text, userId, botId, Response(500, true, results))
      == Initial + [Message(userId, text, User), Message(botId, ApologyText, Bot)]
  {
    var resp := Response(500, true, results);
    assert !HasId(Initial, botId);
    TurnAppendsTwo(Initial, text, userId, botId, resp);
    var r := TurnResult(Initial, text, userId, botId, resp);
    assert r == r[..1] + [r[1], r[2]];
  }

  /**
   * A read that throws, whatever chunks arrived before it: the apology
   * replaces whatever had accumulated, and the user record is intact.
   */
  lemma ReadFailureApologises(before: seq<Message>, text: string, userId: int, botId: int, status: int, results: seq<Read>, k: nat)
    requires OkStatus(status)
    requires k < |results| && results[k].ReadFailed?
    requires forall j :: 0 <= j < k ==> !Terminal(results[j])
    ensures Streaming(Response(status, true, results)) == StreamOutcome(Values(results[..k]), Some(ReadError))
    ensures TurnResult(before, text, userId, botId, Response(status, true, results))[|before| + 1] == Message(botId, ApologyText, Bot)
    ensures userId != botId ==> TurnResult(before, text, userId, botId, Response(status, true, results))[|before|] == Message(userId, text, User)
  {
    ReadLoopStopsAtFirstTerminal(results, k);
    TurnAppendsTwo(before, text, userId, botId, Response(status, true, results));
  }

  /** The backend streams "4" as one chunk: the turn ends with the question and the answer. */
  lemma SingleChunkTurn(userId: int, botId: int)
    requires userId != botId && botId != WelcomeId
    ensures TurnResult(Initial, "2+2?", userId, botId, Response(200, true, [Read(Some("4"), false), Read(None, true)]))
      == Initial + [Message(userId, "2+2?", User), Message(botId, "4", Bot)]
  {
    var resp := Response(200, true, [Read(Some("4"), false), Read(None, true)]);
    assert [Read(Some("4"), false), Read(None, true)][1..] == [Read(None, true)];
    assert Streaming(resp).chunks == ["4"];
    assert Concat(["4"]) == "4";
    assert !HasId(Initial, botId);
    TurnAppendsTwo(Initial, "2+2?", userId, botId, resp);
    var r := TurnResult(Initial, "2+2?", userId, botId, resp);
    assert r == r[..1] + [r[1], r[2]];
  }

  /** One read of the loop: the outcome from position `i` follows from the read there. */
  lemma ReadLoopAt(results: seq<Read>, i: nat)
    requires i < |results|
    ensures results[i].ReadFailed? ==> ReadLoop(results[i..]) == StreamOutcome([], Some(ReadError))
    ensures results[i].Read? && results[i].done ==>
      ReadLoop(results[i..]) == StreamOutcome(Carried(results[i]), None)
    ensures results[i].Read? && !results[i].done ==>
      ReadLoop(results[i..]) == StreamOutcome(Carried(results[i]) + ReadLoop(results[i + 1..]).chunks, ReadLoop(results[i + 1..]).error)
  {
    assert results[i..][0] == results[i];
    assert results[i..][1..] == results[i + 1..];
  }

  /**
   * The loop's bookkeeping for one read `r`: if the whole outcome is
   * `delivered` followed by the outcome `cur` from `r` on, and `cur` is
   * `r`'s value followed by the outcome `next` after it, then the whole
   * outcome is `delivered` and `r`'s value followed by `next`.
   */
  lemma OutcomeStep(whole: StreamOutcome, delivered: seq<string>, cur: StreamOutcome, r: Read, next: StreamOutcome)
    requires whole == StreamOutcome(delivered + cur.chunks, cur.error)
    requires cur == StreamOutcome(Carried(r) + next.chunks, next.error)
    ensures whole == StreamOutcome((delivered + Carried(r)) + next.chunks, next.error)
  {
    assert delivered + (Carried(r) + next.chunks) == (delivered + Carried(r)) + next.chunks;
  }

  /** Handling one more chunk extends the accumulator and the list of written texts by it. */
  lemma AccumulateStep(acc: string, delivered: seq<string>, chunk: string)
    ensures acc + Concat(delivered + [chunk]) == acc + Concat(delivered) + chunk
    ensures Running(acc, delivered + [chunk]) == Running(acc, delivered) + [acc + Concat(delivered) + chunk]
  {
    assert (delivered + [chunk])[..|delivered|] == delivered;
  }

  /**
   * The messages once `delivered` has been handled for the placeholder
   * `botId`, starting from `m0` and `acc0`: once a chunk has arrived, every
   * record with that id holds the accumulator, and every other record is
   * as it was.
   */
  function Handled(m0: seq<Message>, botId: int, acc0: string, delivered: seq<string>): (r: seq<Message>)
    ensures |r| == |m0|
    ensures forall i :: 0 <= i < |m0| && m0[i].id == botId ==> r[i].text == (if delivered == [] then m0[i].text else acc0 + Concat(delivered))
    ensures forall i :: 0 <= i < |m0| && m0[i].id != botId ==> r[i] == m0[i]
  {
    if delivered == [] then m0 else UpdateText(m0, botId, acc0 + Concat(delivered))
  }

  /** Handling one more chunk rewrites the placeholder with the grown accumulator. */
  lemma HandledStep(m0: seq<Message>, botId: int, acc0: string, delivered: seq<string>, chunk: string)
    ensures UpdateText(Handled(m0, botId, acc0, delivered), botId, acc0 + Concat(delivered) + chunk)
      == Handled(m0, botId, acc0, delivered + [chunk])
  {
    AccumulateStep(acc0, delivered, chunk);
    if delivered != [] {
      UpdateTwice(m0, botId, acc0 + Concat(delivered), acc0 + Concat(delivered) + chunk);
    }
  }

  /** Handling one more chunk appends the grown accumulator to the written texts. */
  lemma WrittenStep(w0: seq<string>, acc0: string, delivered: seq<string>, chunk: string)
    ensures w0 + Running(acc0, delivered) + [acc0 + Concat(delivered) + chunk]
      == w0 + Running(acc0, delivered + [chunk])
  {
    AccumulateStep(acc0, delivered, chunk);
  }

  /**
   * The turn in two steps: the chunks are handled for the fresh
   * placeholder with an empty accumulator, giving `handled`; an error then
   * overwrites the placeholder with the apology.
   */
  lemma TurnFromHandled(before: seq<Message>, text: string, userId: int, botId: int, resp: StreamResponse, handled: seq<Message>)
    requires handled == Handled(before + [Message(userId, text, User), Message(botId, "", Bot)], botId, "", Streaming(resp).chunks)
    ensures Streaming(resp).error.Some? ==> UpdateText(handled, botId, ApologyText) == TurnResult(before, text, userId, botId, resp)
    ensures Streaming(resp).error.None? ==> handled == TurnResult(before, text, userId, botId, resp)
  {
    var started := before + [Message(userId, text, User), Message(botId, "", Bot)];
    var out := Streaming(resp);
    assert "" + Concat(out.chunks) == Concat(out.chunks);
    if out.error.Some? && out.chunks != [] {
      UpdateTwice(started, botId, Concat(out.chunks), ApologyText);
    }
  }

  /**
   * The page's state: the `messages` list, and the `accumulatedResponse`
   * of the turn in progress. `written` records the texts the chunk handler
   * has written to the placeholder during that turn.
   */
  class Home {
    var messages: seq<Message>
    var accumulated: string
    ghost var written: seq<string>

    /** The placeholder's text only ever grows during a turn. */
    ghost predicate Valid()
      reads this
    {
      PrefixOrdered(written) && forall i :: 0 <= i < |written| ==> written[i] <= accumulated
    }

    /** The page starts with the welcome message. */
    constructor ()
      ensures Valid() && messages == Initial && accumulated == "" && written == []
    {
      messages := Initial;
      accumulated := "";
      written := [];
    }

    /** `handleChunk`: grow the accumulator by the chunk and write it to the placeholder. */
    method HandleChunk(botId: int, chunk: string)
      requires Valid()
      modifies this
      ensures Valid()
      ensures accumulated == old(accumulated) + chunk
      ensures messages == UpdateText(old(messages), botId, accumulated)
      ensures written == old(written) + [accumulated]
    {
      ghost var before := accumulated;
      accumulated := accumulated + chunk;
      messages := UpdateText(messages, botId, accumulated);
      forall i | 0 <= i < |written| ensures written[i] <= accumulated {
        PrefixTrans(written[i], before, accumulated);
      }
      written := written + [accumulated];
    }

    /**
     * `fetchBotResponseStreaming` with `handleChunk` for the placeholder
     * `botId` as its `onChunk`: a failed request, a non-ok status and a
     * missing reader throw before the body is read; otherwise the body is
     * read. The chunks of `Streaming(resp)` are handled in order, and its
     * error is returned.
     */
    method FetchBotResponseStreaming(resp: StreamResponse, botId: int) returns (error: Option<StreamError>)
      requires Valid()
      modifies this
      ensures Valid()
      ensures error == Streaming(resp).error
      ensures accumulated == old(accumulated) + Concat(Streaming(resp).chunks)
      ensures written == old(written) + Running(old(accumulated), Streaming(resp).chunks)
      ensures messages == Handled(old(messages), botId, old(accumulated), Streaming(resp).chunks)
    {
      if resp.FetchFailed? {
        return Some(RequestFailed);
      }
      if !OkStatus(resp.status) {
        return Some(BadStatus(resp.status));
      }
      if !resp.hasReader {
        return Some(NoReader);
      }
      error := ReadBody(resp.results, botId);
    }

    /**
     * The read loop of `fetchBotResponseStreaming`: each read's value goes
     * to `handleChunk`, until a read reports done or throws.
     */
    method ReadBody(results: seq<Read>, botId: int) returns (error: Option<StreamError>)
      requires Valid()
      modifies this
      ensures Valid()
      ensures error == ReadLoop(results).error
      ensures accumulated == old(accumulated) + Concat(ReadLoop(results).chunks)
      ensures written == old(written) + Running(old(accumulated), ReadLoop(results).chunks)
      ensures messages == Handled(old(messages), botId, old(accumulated), ReadLoop(results).chunks)
    {
      var done := false;
      var i := 0;
      ghost var delivered: seq<string> := [];
      while !done
        invariant 0 <= i <= |results|
        invariant Valid()
        invariant done ==> ReadLoop(results) == StreamOutcome(delivered, None)
        invariant !done ==> ReadLoop(results) == StreamOutcome(delivered + ReadLoop(results[i..]).chunks, ReadLoop(results[i..]).error)
        invariant accumulated == old(accumulated) + Concat(delivered)
        invariant written == old(written) + Running(old(accumulated), delivered)
        invariant messages == Handled(old(messages), botId, old(accumulated), delivered)
        decreases |results| - i + (if done then 0 else 1)
      {
        if i == |results| {
          done := true;
          assert delivered + [] == delivered;
        } else {
          var r := results[i];
          ReadLoopAt(results, i);
          if r.ReadFailed? {
            assert delivered + [] == delivered;
            return Some(ReadError);
          }
          if r.done {
            assert delivered + Carried(r) + [] == delivered + Carried(r);
            OutcomeStep(ReadLoop(results), delivered, ReadLoop(results[i..]), r, StreamOutcome([], None));
          } else {
            OutcomeStep(ReadLoop(results), delivered, ReadLoop(results[i..]), r, ReadLoop(results[i + 1..]));
          }
          done := r.done;
          if r.value.Some? {
            var chunk := r.value.value;
            HandleChunk(botId, chunk);
            AccumulateStep(old(accumulated), delivered, chunk);
            WrittenStep(old(written), old(accumulated), delivered, chunk);
            HandledStep(old(messages), botId, old(accumulated), delivered, chunk);
          } else {
            assert delivered + [] == delivered;
          }
          delivered := delivered + Carried(r);
          i := i + 1;
        }
      }
      return None;
    }

    /**
     * `handleSendMessage`: append the user record and the empty
     * placeholder `botId`, stream the reply into the placeholder, and on
     * any error overwrite it with the apology.
     */
    method HandleSendMessage(text: string, userId: int, botId: int, resp: StreamResponse)
      requires Valid()
      modifies this
      ensures Valid()
      ensures messages == TurnResult(old(messages), text, userId, botId, resp)
      ensures accumulated == Concat(Streaming(resp).chunks)
      ensures written == Running("", Streaming(resp).chunks)
    {
      messages := messages + [Message(userId, text, User)];
      messages := messages + [Message(botId, "", Bot)];
      assert messages == old(messages) + [Message(userId, text, User), Message(botId, "", Bot)];
      accumulated := "";
      written := [];
      var error := FetchBotResponseStreaming(resp, botId);
      TurnFromHandled(old(messages), text, userId, botId, resp, messages);
      assert [] + Running("", Streaming(resp).chunks) == Running("", Streaming(resp).chunks);
      assert "" + Concat(Streaming(resp).chunks) == Concat(Streaming(resp).chunks);
      if error.Some? {
        messages := UpdateText(messages, botId, ApologyText);
      }
    }
  }
}
