/**
 * The FastAPI backend's handling of the bot's event stream: the delta
 * filter behind the streaming endpoint and the accumulation behind the
 * non-streaming endpoint (BackEnd/main.py).
 */
module Backend {
  import opened Wrappers
  import opened Strings

  /**
   * One item the bot logic yields. `delta` is None when the item has no
   * `delta` attribute or its value is Python `None`.
   */
  datatype Chunk = Chunk(delta: Option<string>)

  /** One step of iterating the bot's async generator: it yields an item or raises. */
  datatype Step = Yield(chunk: Chunk) | Raise

  /** The body of `MessageResponse`. */
  datatype MessageResponse = MessageResponse(response: string)

  /** An `HTTPException` raised by an endpoint. */
  datatype HttpError = HttpError(status: int, detail: string)

  /** The one error both endpoints raise. */
  const ProcessingError := HttpError(500, "Error processing message")

  /** The media type of the streaming endpoint's response. */
  const StreamMediaType := "text/event-stream"

  /** What the streaming endpoint sends: the yielded texts, and whether the generator raised. */
  datatype StreamingResponse = StreamingResponse(mediaType: string, body: seq<string>, aborted: bool)

  /**
   * `hasattr(chunk, 'delta') and chunk.delta`: a delta is present and
   * non-empty. A chunk is skipped exactly when its delta is missing or
   * `None`, or is the empty string, the one falsy string.
   */
  predicate Usable(c: Chunk)
    ensures !Usable(c) <==> c.delta == None || c.delta == Some("")
  {
    c.delta.Some? && c.delta.value != ""
  }

  /**
   * The items the generator yields before it first raises: the `Yield`
   * steps in front of the first `Raise`, in order. The iteration stops
   * short of the last step exactly when the generator raises.
   */
  function Yielded(steps: seq<Step>): (r: seq<Chunk>)
    ensures |r| <= |steps|
    ensures forall i :: 0 <= i < |r| ==> steps[i] == Yield(r[i])
    ensures |r| < |steps| ==> steps[|r|].Raise?
    ensures |r| < |steps| <==> Raises(steps)
  {
    if steps == [] then []
    else match steps[0]
      case Raise => []
      case Yield(c) => [c] + Yielded(steps[1..])
  }

  /** The generator raises at some point of the iteration: some step is a `Raise`. */
  predicate Raises(steps: seq<Step>)
    ensures Raises(steps) <==> exists i :: 0 <= i < |steps| && steps[i].Raise?
  {
    steps != [] && (steps[0].Raise? || Raises(steps[1..]))
  }

  /** `stream_processor`: the present, non-empty deltas of `chunks`, in order. */
  function StreamProcessor(chunks: seq<Chunk>): (r: seq<string>)
    ensures |r| <= |chunks|
    ensures forall i :: 0 <= i < |r| ==> r[i] != ""
  {
    if chunks == [] then []
    else
      var rest := StreamProcessor(chunks[1..]);
      if Usable(chunks[0]) then [chunks[0].delta.value] + rest else rest
  }

  /**
   * `process_message_async`. Calling the async generator function only
   * creates the generator, so the `except` around it never fires: an
   * exception raised while the body streams ends the body early instead
   * of producing an HTTP 500.
   */
  function ProcessMessageAsync(steps: seq<Step>): (r: StreamingResponse)
    ensures r.mediaType == StreamMediaType
    ensures r.aborted <==> Raises(steps)
    ensures r.body == StreamProcessor(Yielded(steps))
    ensures forall d :: d in r.body <==> exists i :: 0 <= i < |Yielded(steps)| && Yielded(steps)[i].delta == Some(d) && d != ""
  {
    var chunks := Yielded(steps);
    StreamProcessorMember(chunks);
    StreamingResponse(StreamMediaType, StreamProcessor(chunks), Raises(steps))
  }

  /**
   * `process_message`: iterate the generator, adding every present,
   * non-empty delta to the response; any exception becomes HTTP 500.
   */
  method ProcessMessage(steps: seq<Step>) returns (r: Result<MessageResponse, HttpError>)
    ensures Raises(steps) ==> r == Failure(ProcessingError)
    ensures !Raises(steps) ==> r == Success(MessageResponse(Concat(StreamProcessor(Yielded(steps)))))
  {
    var complete := "";
    var i := 0;
    while i < |steps|
      invariant 0 <= i <= |steps|
      invariant !Raises(steps[..i])
      invariant complete == Concat(StreamProcessor(Yielded(steps[..i])))
    {
      assert steps[..i + 1] == steps[..i] + [steps[i]];
      match steps[i]
      case Raise =>
        RaiseStep(steps[..i], steps[i..]);
        assert steps == steps[..i] + steps[i..];
        return Failure(ProcessingError);
      case Yield(c) =>
        YieldStep(steps[..i], c);
        if c.delta.Some? && c.delta.value != "" {
          complete := complete + c.delta.value;
        }
      i := i + 1;
    }
    assert steps[..i] == steps;
    return Success(MessageResponse(complete));
  }

  /** A raise after a prefix that does not raise: the whole iteration raises. */
  lemma RaiseStep(prefix: seq<Step>, rest: seq<Step>)
    requires rest != [] && rest[0].Raise?
    ensures Raises(prefix + rest)
  {
    StepsJoin(prefix, rest);
  }

  /** One more yielded item adds its delta, if usable, to the response. */
  lemma YieldStep(prefix: seq<Step>, c: Chunk)
    requires !Raises(prefix)
    ensures !Raises(prefix + [Yield(c)])
    ensures Concat(StreamProcessor(Yielded(prefix + [Yield(c)])))
      == Concat(StreamProcessor(Yielded(prefix))) + (if Usable(c) then c.delta.value else "")
  {
    StepsJoin(prefix, [Yield(c)]);
    assert [Yield(c)][1..] == [];
    assert Yielded([Yield(c)]) == [c];
    assert [c][1..] == [];
    StreamProcessorJoin(Yielded(prefix), [c]);
    var before := StreamProcessor(Yielded(prefix));
    if Usable(c) {
      assert StreamProcessor([c]) == [c.delta.value];
      ConcatJoin(before, [c.delta.value]);
      assert Concat([c.delta.value]) == c.delta.value;
    } else {
      assert StreamProcessor([c]) == [];
      assert before + [] == before;
    }
  }

  /** Iterating `a` then `b`: if `a` does not raise, the rest comes from `b`. */
  lemma {:induction false} StepsJoin(a: seq<Step>, b: seq<Step>)
    ensures !Raises(a) ==> Yielded(a + b) == Yielded(a) + Yielded(b) && (Raises(a + b) <==> Raises(b))
    ensures Raises(a) ==> Yielded(a + b) == Yielded(a) && Raises(a + b)
    decreases |a|
  {
    if a != [] {
      assert (a + b)[0] == a[0] && (a + b)[1..] == a[1..] + b;
      StepsJoin(a[1..], b);
    } else {
      assert a + b == b;
    }
  }

  /** The filter distributes over joining two chunk sequences. */
  lemma {:induction false} StreamProcessorJoin(a: seq<Chunk>, b: seq<Chunk>)
    ensures StreamProcessor(a + b) == StreamProcessor(a) + StreamProcessor(b)
    decreases |a|
  {
    if a == [] {
      assert a + b == b;
    } else {
      assert (a + b)[0] == a[0] && (a + b)[1..] == a[1..] + b;
      StreamProcessorJoin(a[1..], b);
    }
  }

  /** A text is yielded exactly when some chunk carries it as a non-empty delta. */
  lemma {:induction false} StreamProcessorMember(chunks: seq<Chunk>)
    ensures forall d :: d in StreamProcessor(chunks) <==>
      exists i :: 0 <= i < |chunks| && chunks[i].delta == Some(d) && d != ""
    decreases |chunks|
  {
    if chunks != [] {
      StreamProcessorMember(chunks[1..]);
      forall d | exists i :: 0 <= i < |chunks| && chunks[i].delta == Some(d) && d != ""
        ensures d in StreamProcessor(chunks)
      {
        var i :| 0 <= i < |chunks| && chunks[i].delta == Some(d) && d != "";
        if i > 0 {
          assert chunks[1..][i - 1] == chunks[i];
        }
      }
      forall d | d in StreamProcessor(chunks)
        ensures exists i :: 0 <= i < |chunks| && chunks[i].delta == Some(d) && d != ""
      {
        if !(Usable(chunks[0]) && d == chunks[0].delta.value) {
          var j :| 0 <= j < |chunks[1..]| && chunks[1..][j].delta == Some(d) && d != "";
          assert chunks[j + 1] == chunks[1..][j];
        }
      }
    }
  }

  /** A chunk without a usable delta contributes nothing, wherever it stands. */
  lemma UnusableChunkIgnored(a: seq<Chunk>, c: Chunk, b: seq<Chunk>)
    requires !Usable(c)
    ensures StreamProcessor(a + [c] + b) == StreamProcessor(a + b)
  {
    StreamProcessorJoin(a + [c], b);
    StreamProcessorJoin(a, [c]);
    StreamProcessorJoin(a, b);
  }

  /** The complete response is empty exactly when no chunk has a usable delta. */
  lemma {:induction false} EmptyResponseIffNoDelta(chunks: seq<Chunk>)
    ensures Concat(StreamProcessor(chunks)) == "" <==> forall i :: 0 <= i < |chunks| ==> !Usable(chunks[i])
    decreases |chunks|
  {
    if chunks != [] {
      EmptyResponseIffNoDelta(chunks[1..]);
      var rest := StreamProcessor(chunks[1..]);
      if Usable(chunks[0]) {
        var d := chunks[0].delta.value;
        assert StreamProcessor(chunks) == [d] + rest;
        ConcatJoin([d], rest);
        assert Concat([d]) == d;
        assert |Concat(StreamProcessor(chunks))| >= |d| > 0;
      } else {
        assert StreamProcessor(chunks) == rest;
        forall i | 1 <= i < |chunks| ensures chunks[i] == chunks[1..][i - 1] { }
      }
    }
  }
}
